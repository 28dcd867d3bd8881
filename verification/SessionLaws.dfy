/**
  What a session keeps over any run of cycles and any behaviour of the link: the order of its flags, the receive
  window, and that every payload it hands out answers for the subscribed instance.
 */
module SessionLaws {
  import opened Wrappers
  import opened Bytes
  import opened Cbor
  import opened Records
  import opened Frames
  import opened Sessions
  import Control
  import RecordLaws
  import CborLaws
  import Sequences

  // ---- The receive window ----

  const WINDOW: nat := 128

  // A negotiated session in step with the peer: the chunks not yet granted again are the ones counted or lost.
  predicate InStep(s: Session, l: Link) {
    && s.open && l.isOpen && s.negotiated
    && |s.buffer| <= DEFAULT_MAX_BUFFER && s.chunks < RECEIVE_CREDIT_THRESHOLD
    && l.credit + l.lost == WINDOW - s.chunks
    && (l.lost == 0 || l.lost >= RECEIVE_CREDIT_THRESHOLD)
  }

  predicate WindowHolds(l: Link) {
    64 <= l.credit <= WINDOW
  }

  /** In step, the peer may send between 64 and 128 more chunks exactly when no write of credit was ever lost. */
  lemma WindowIffNothingLost(s: Session, l: Link)
    requires InStep(s, l)
    ensures WindowHolds(l) <==> l.lost == 0
    ensures l.lost > 0 ==> l.credit < 64
  {
  }

  // What a step may change in a session besides counting and buffering.
  predicate SameStanding(a: Session, b: Session) {
    a.open == b.open && a.negotiated == b.negotiated && a.subscribed == b.subscribed && a.reusable == b.reusable
  }

  predicate SameFallback(a: Session, b: Session) {
    a.fallback == b.fallback
  }

  // The chunks among what is still to arrive.
  function Arrivals(events: seq<Event>): nat {
    if events == [] then 0
    else (if events[0].Arrives? && events[0].source != ControlSource then 1 else 0) + Arrivals(events[1..])
  }

  // The chunks granted by the frames sent.
  function GrantedBy(sent: seq<Sent>): nat {
    if sent == [] then 0 else GrantedBy(sent[..|sent| - 1]) + Granted(sent[|sent| - 1])
  }

  // A credit write was lost, and the peer keeps to the credit it has.
  predicate Starved(s: Session, l: Link) {
    InStep(s, l) && l.lost > 0 && Arrivals(l.events) <= l.credit
  }

  // Still starved: the peer used some of its credit, and nothing was granted.
  predicate StillStarved(s: Session, l: Link, s': Session, l': Link) {
    && Starved(s', l') && l'.lost == l.lost && l'.isOpen
    && l'.credit - Arrivals(l'.events) == l.credit - Arrivals(l.events)
    && GrantedBy(l'.sent) == GrantedBy(l.sent)
  }

  // A step that only receives; of a starved session it leaves a starved one.
  predicate Received(s: Session, l: Link, s': Session, l': Link) {
    && InStep(s', l') && SameStanding(s, s') && LastDataCount(l'.sent) == LastDataCount(l.sent)
    && (Starved(s, l) ==> StillStarved(s, l, s', l'))
  }

  /** Every recorded notification leaves the session in step, so the window bound holds after each one. */
  lemma NotificationKeepsStep(s: Session, l: Link)
    requires InStep(s, l) && l.events != [] && l.events[0].Arrives?
    ensures var t := Replenish(s, Taken(l), l.events[0].source);
            && Received(s, l, t.session, t.link) && SameFallback(s, t.session) && t.session.buffer == s.buffer
            && (Starved(s, l) ==> t.result.Ok?)
  {
    hide LastDataCount, GrantedBy, Arrivals;
    OneFewerToCome(l);
    var (chunks, grant) := Record(s.chunks, l.events[0].source);
    if grant.Some? {
      OneMoreSent(l.sent, ToControl([0xf9, grant.value]));
    }
  }

  lemma OneFewerToCome(l: Link)
    requires l.events != [] && l.events[0].Arrives?
    ensures Arrivals(l.events) == (if l.events[0].source == ControlSource then 0 else 1) + Arrivals(Taken(l).events)
    ensures Arrivals(l.events) >= 0
  {
  }

  // ---- Requests on the wire ----

  // Each request ends in one chunk to LastData.
  function LastDataCount(sent: seq<Sent>): nat {
    if sent == [] then 0
    else
      var last := sent[|sent| - 1];
      LastDataCount(sent[..|sent| - 1]) + if last.ToChunk? && last.chunk.target == LastData then 1 else 0
  }

  lemma OneMoreSent(sent: seq<Sent>, frame: Sent)
    ensures LastDataCount(sent + [frame])
            == LastDataCount(sent) + if frame.ToChunk? && frame.chunk.target == LastData then 1 else 0
    ensures GrantedBy(sent + [frame]) == GrantedBy(sent) + Granted(frame)
  {
    assert (sent + [frame])[..|sent|] == sent;
  }

  // A chunk write changes neither credit nor what was lost.
  lemma ChunkWrite(l: Link, c: Chunk)
    ensures var (status, next) := Write(l, ToChunk(c));
            && next.credit == l.credit && next.lost == l.lost
            && next.sent == l.sent + if status.Pass? then [ToChunk(c)] else []
  {
  }

  lemma {:induction false} ChunkWrites(l: Link, chunks: seq<Chunk>)
    requires chunks != [] && chunks[|chunks| - 1].target == LastData
    requires forall i :: 0 <= i < |chunks| - 1 ==> chunks[i].target == Data
    ensures var (status, next) := WriteChunks(l, chunks);
            && next.credit == l.credit && next.lost == l.lost
            && LastDataCount(next.sent) == LastDataCount(l.sent) + (if status.Pass? then 1 else 0)
            && GrantedBy(next.sent) == GrantedBy(l.sent)
    decreases |chunks|
  {
    hide Write, LastDataCount, GrantedBy;
    ChunkWrite(l, chunks[0]);
    var (status, next) := Write(l, ToChunk(chunks[0]));
    OneMoreSent(l.sent, ToChunk(chunks[0]));
    assert l.sent + [] == l.sent;
    if status.Pass? && |chunks| > 1 {
      ChunkWrites(next, chunks[1..]);
    }
  }

  lemma RequestWrite(l: Link, payload: seq<Byte>)
    ensures var (status, next) := WriteRequest(l, payload);
            && next.credit == l.credit && next.lost == l.lost
            && LastDataCount(next.sent) == LastDataCount(l.sent) + (if status.Pass? then 1 else 0)
            && GrantedBy(next.sent) == GrantedBy(l.sent)
  {
    hide Split, WriteChunks, LastDataCount, GrantedBy;
    if payload != [] {
      ChunkWrites(l, Split(payload, WRITE_SIZE));
    }
  }

  // ---- Receiving ----

  lemma PushKeepsStep(s: Session, l: Link, source: Source, value: seq<Byte>)
    requires InStep(s, l) && source != ControlSource
    ensures var (_, after) := Push(s, source, value);
            Received(s, l, after, l) && SameFallback(s, after)
  {
  }

  lemma {:induction false} NextPayloadKeepsStep(s: Session, l: Link)
    requires InStep(s, l)
    ensures var t := NextPayload(s, l); Received(s, l, t.session, t.link) && SameFallback(s, t.session)
    decreases |l.events|
  {
    hide Replenish, Push, Control.Parse, LastDataCount, GrantedBy;
    if l.events != [] && l.events[0].Arrives? {
      var e := l.events[0];
      NotificationKeepsStep(s, l);
      var t := Replenish(s, Taken(l), e.source);
      if t.result.Ok? {
        if e.source == ControlSource {
          var cleared := t.session.(buffer := []);
          NextPayloadKeepsStep(cleared, t.link);
          NextPayloadKeepsStep(t.session, t.link);
        } else {
          PushKeepsStep(t.session, t.link, e.source, e.value);
          var (pushed, session) := Push(t.session, e.source, e.value);
          NextPayloadKeepsStep(session, t.link);
        }
      }
    }
  }

  // A kept payload answers for the instance.
  predicate Correlated(fallback: Option<seq<Byte>>, inst: U16) {
    fallback.Some? ==> HasValues(fallback.value, inst) == Ok(true)
  }

  lemma {:induction false} DrainKeepsStep(s: Session, l: Link, inst: U16)
    requires InStep(s, l) && Correlated(s.fallback, inst)
    ensures var t := DrainEvents(s, l, inst); Received(s, l, t.session, t.link) && Correlated(t.session.fallback, inst)
    decreases |l.events|
  {
    hide Replenish, Push, Control.Parse, LastDataCount, GrantedBy, HasValues;
    if l.events != [] && l.events[0].Arrives? {
      var e := l.events[0];
      NotificationKeepsStep(s, l);
      var t := Replenish(s, Taken(l), e.source);
      if t.result.Ok? {
        if e.source == ControlSource {
          DrainKeepsStep(t.session.(buffer := []), t.link, inst);
          DrainKeepsStep(t.session, t.link, inst);
        } else {
          PushKeepsStep(t.session, t.link, e.source, e.value);
          var (pushed, session) := Push(t.session, e.source, e.value);
          DrainKeepsStep(session, t.link, inst);
          if pushed.Ok? && pushed.value.Some? && HasValues(pushed.value.value, inst) == Ok(true) {
            DrainKeepsStep(session.(fallback := pushed.value), t.link, inst);
          }
        }
      }
    }
  }

  lemma {:induction false} WaitKeepsStep(s: Session, l: Link, inst: U16)
    requires InStep(s, l)
    ensures var t := WaitForValues(s, l, inst);
            && Received(s, l, t.session, t.link) && SameFallback(s, t.session)
            && (t.result.Ok? ==> HasValues(t.result.value, inst) == Ok(true))
    decreases |l.events|
  {
    hide NextPayload, LastDataCount, GrantedBy, Arrivals, HasValues, InStep;
    NextPayloadKeepsStep(s, l);
    var t := NextPayload(s, l);
    if t.result.Ok? && HasValues(t.result.value, inst) == Ok(false) {
      WaitKeepsStep(t.session, t.link, inst);
    }
  }

  // ---- The whole session ----

  // Between any two operations on one instance; what is claimed of the flags is their order.
  predicate Valid(s: Session, l: Link, inst: U16) {
    && s.open == l.isOpen
    && (s.reusable ==> s.subscribed.Some?)
    && (s.subscribed.Some? ==> s.negotiated && s.subscribed == Some(inst) && Correlated(s.fallback, inst))
    && (s.negotiated ==> InStep(s, l))
    && (!s.negotiated ==> s.chunks == 0 && |s.buffer| <= DEFAULT_MAX_BUFFER && (s.open ==> l.credit == 0 && l.lost == 0))
  }

  /** Reusable implies subscribed implies negotiated implies opened. */
  lemma FlagsAreOrdered(s: Session, l: Link, inst: U16)
    requires Valid(s, l, inst)
    ensures (s.reusable ==> s.subscribed.Some?) && (s.subscribed.Some? ==> s.negotiated) && (s.negotiated ==> s.open)
  {
  }

  lemma DiscoverKeepsValid(s: Session, l: Link, inst: U16)
    requires Valid(s, l, inst)
    ensures var t := Discover(s, l); Valid(t.session, t.link, inst) && (t.result.Ok? ==> t.session.open)
  {
  }

  lemma NegotiateKeepsValid(s: Session, l: Link, inst: U16)
    requires Valid(s, l, inst)
    ensures var t := Negotiate(s, l, NEGOTIATION_WRITES);
            t.result.Ok? ==> Valid(t.session, t.link, inst) && t.session.negotiated
  {
    hide HasValues;
    if !s.negotiated {
      var (info, link) := ReadControl(l);
      if info.Ok? && |info.value| == CONTROL_INFO_LENGTH {
        OpeningFrames(link);
      }
    }
  }

  // The two opening writes grant exactly the window.
  lemma OpeningFrames(l: Link)
    requires l.isOpen
    ensures var (status, next) := WriteFrames(l, NEGOTIATION_WRITES);
            status.Pass? ==> next.isOpen && next.credit == l.credit + WINDOW && next.lost == l.lost
  {
    var (first, between) := Write(l, ToControl(NEGOTIATION_WRITES[0]));
    assert NEGOTIATION_WRITES[1..] == [NEGOTIATION_WRITES[1]];
    if first.Pass? {
      var (second, next) := Write(between, ToControl(NEGOTIATION_WRITES[1]));
      assert NEGOTIATION_WRITES[1..][1..] == [];
      assert second.Pass? ==> WriteFrames(next, []) == (Pass, next);
      assert WriteFrames(between, NEGOTIATION_WRITES[1..])
             == if second.Fail? then (Fail(MapTransport(second.error)), next) else (Pass, next);
    }
  }

  lemma SubscribeKeepsValid(s: Session, l: Link, inst: U16, payload: seq<Byte>)
    requires Valid(s, l, inst)
    ensures var t := Subscribe(s, l, inst, payload);
            Valid(t.session, t.link, inst) && (t.result.Ok? ==> t.session.subscribed == Some(inst))
  {
    hide DrainEvents, WriteRequest, LastDataCount, HasValues;
    if s.negotiated {
      var cleared := s.(buffer := [], fallback := None);
      if s.subscribed == Some(inst) {
        DrainKeepsStep(cleared, l, inst);
      } else {
        RequestWrite(l, payload);
        var (status, link) := WriteRequest(l, payload);
        DrainKeepsStep(cleared, link, inst);
      }
    }
  }

  lemma AttemptKeepsValid(s: Session, l: Link, inst: U16, payload: seq<Byte>, last: bool)
    requires Valid(s, l, inst) && s.subscribed == Some(inst)
    ensures var t := Attempt(s, l, inst, payload, last);
            && Valid(t.session, t.link, inst) && t.session.subscribed == Some(inst)
            && (t.result.Ok? ==> t.session.reusable && HasValues(t.result.value, inst) == Ok(true))
            && LastDataCount(t.link.sent) <= LastDataCount(l.sent) + (if last then 1 else 2)
            && (Starved(s, l) ==> StillStarved(s, l, t.session, t.link))
    decreases !last
  {
    hide WaitForValues, WriteRequest, LastDataCount, GrantedBy, Arrivals, HasValues;
    var cleared := s.(buffer := []);
    RequestWrite(l, payload);
    var (status, link) := WriteRequest(l, payload);
    if status.Pass? {
      WaitKeepsStep(cleared, link, inst);
      var t := WaitForValues(cleared, link, inst);
      if t.result.Err? && t.session.fallback.None? && !last && t.result.error == Timeout {
        AttemptKeepsValid(t.session, t.link, inst, payload, true);
      }
    }
  }

  /** Every payload a request returns, fresh or kept, answers for the instance, after at most two request writes. */
  lemma RequestAnswersForInstance(s: Session, l: Link, inst: U16, payload: seq<Byte>)
    requires Valid(s, l, inst)
    ensures var t := RequestValues(s, l, payload);
            && Valid(t.session, t.link, inst)
            && (t.result.Ok? ==> t.session.reusable && HasValues(t.result.value, inst) == Ok(true))
            && LastDataCount(t.link.sent) <= LastDataCount(l.sent) + 2
  {
    hide Attempt, LastDataCount, HasValues;
    if s.subscribed.Some? {
      AttemptKeepsValid(s.(reusable := false), l, inst, payload, false);
    }
  }

  /** A value for the instance is among the records of a correlated payload. */
  lemma {:induction false} ValuesAreThere(rs: seq<Response>, inst: U16)
    ensures AnyValue(rs, inst) <==> exists i :: 0 <= i < |rs| && rs[i].Value? && rs[i].instance == inst
  {
    if rs != [] {
      ValuesAreThere(rs[1..], inst);
      if AnyValue(rs[1..], inst) {
        var i :| 0 <= i < |rs| - 1 && rs[1..][i].Value? && rs[1..][i].instance == inst;
        assert rs[i + 1] == rs[1..][i];
      }
      if i :| 0 <= i < |rs| && rs[i].Value? && rs[i].instance == inst {
        assert i > 0 ==> rs[1..][i - 1] == rs[i];
      }
    }
  }

  // ---- Runs of cycles ----

  // What one cycle sends, and whether what follows the request in the cycle succeeds.
  datatype Plan = Plan(subscribe: seq<Byte>, values: seq<Byte>, completes: bool)

  // The phases up to the request, ended by the first failure.
  function Acquire(s: Session, l: Link, inst: U16, plan: Plan): Turn<seq<Byte>> {
    var d := Discover(s, l);
    if d.result.Err? then Turn(Err(d.result.error), d.session, d.link)
    else
      var c := Connect(d.session, d.link);
      if c.result.Err? then Turn(Err(c.result.error), c.session, c.link)
      else
        var n := Negotiate(c.session, c.link, NEGOTIATION_WRITES);
        if n.result.Err? then Turn(Err(n.result.error), n.session, n.link)
        else
          var b := Subscribe(n.session, n.link, inst, plan.subscribe);
          if b.result.Err? then Turn(Err(b.result.error), b.session, b.link)
          else RequestValues(b.session, b.link, plan.values)
  }

  // A cycle finishes the session when all of it succeeded and disconnects otherwise.
  function Cycle(s: Session, l: Link, inst: U16, plan: Plan): Turn<seq<Byte>> {
    var t := Acquire(s, l, inst, plan);
    var f := if t.result.Ok? && plan.completes then FinishCycle(t.session, t.link) else Disconnect(t.session, t.link);
    Turn(t.result, f.session, f.link)
  }

  // Between cycles the session is closed or kept for reuse.
  predicate AtRest(s: Session, l: Link, inst: U16) {
    Valid(s, l, inst) && (s == CLOSED || s.reusable)
  }

  /** Disconnecting brings any session to rest, whatever was cut off halfway before it. */
  lemma DisconnectComesToRest(s: Session, l: Link, inst: U16)
    ensures var t := Disconnect(s, l); AtRest(t.session, t.link, inst) && t.session == CLOSED && !t.link.isOpen
  {
  }

  lemma CycleComesToRest(s: Session, l: Link, inst: U16, plan: Plan)
    requires AtRest(s, l, inst)
    ensures var t := Cycle(s, l, inst, plan);
            AtRest(t.session, t.link, inst) && (t.result.Ok? ==> HasValues(t.result.value, inst) == Ok(true))
  {
    hide Discover, Negotiate, Subscribe, RequestValues, HasValues, Valid;
    var t := Acquire(s, l, inst, plan);
    DisconnectComesToRest(t.session, t.link, inst);
    DiscoverKeepsValid(s, l, inst);
    var d := Discover(s, l);
    if d.result.Ok? {
      NegotiateKeepsValid(d.session, d.link, inst);
      var n := Negotiate(d.session, d.link, NEGOTIATION_WRITES);
      if n.result.Ok? && d.session.open {
        SubscribeKeepsValid(n.session, n.link, inst, plan.subscribe);
        var b := Subscribe(n.session, n.link, inst, plan.subscribe);
        if b.result.Ok? {
          RequestAnswersForInstance(b.session, b.link, inst, plan.values);
        }
      }
    }
  }

  // The payloads of a run of cycles, with the session and link it ends in.
  function Cycles(s: Session, l: Link, inst: U16, plans: seq<Plan>): (seq<Result<seq<Byte>, BleError>>, Session, Link)
    decreases |plans|
  {
    if plans == [] then ([], s, l)
    else
      var t := Cycle(s, l, inst, plans[0]);
      var (later, s', l') := Cycles(t.session, t.link, inst, plans[1..]);
      ([t.result] + later, s', l')
  }

  /**
    Over any run of cycles on one instance and any link, the session comes to rest after every cycle and every payload
    it handed to a cycle has a value of the instance.
   */
  lemma {:induction false} RunsAnswerForInstance(s: Session, l: Link, inst: U16, plans: seq<Plan>)
    requires AtRest(s, l, inst)
    ensures var (results, s', l') := Cycles(s, l, inst, plans);
            && |results| == |plans| && AtRest(s', l', inst)
            && forall i :: 0 <= i < |results| && results[i].Ok? ==> HasValues(results[i].value, inst) == Ok(true)
    decreases |plans|
  {
    hide Cycle, AtRest, HasValues;
    if plans != [] {
      var t := Cycle(s, l, inst, plans[0]);
      CycleComesToRest(s, l, inst, plans[0]);
      RunsAnswerForInstance(t.session, t.link, inst, plans[1..]);
    }
  }

  // ---- What a lost credit does ----

  /**
    Whenever a request succeeds although a credit write was lost on this connection, the session is kept for the next
    cycle with a window short of 64.
   */
  lemma LostCreditIsKept(s: Session, l: Link, inst: U16, payload: seq<Byte>)
    requires Valid(s, l, inst)
    ensures var t := RequestValues(s, l, payload);
            t.result.Ok? && t.link.lost > 0 ==>
              && t.session.reusable && t.link.credit < 64
              && FinishCycle(t.session, t.link) == Turn(Ok(()), t.session, t.link)
  {
    hide Attempt, HasValues, LastDataCount;
    RequestAnswersForInstance(s, l, inst, payload);
    var t := RequestValues(s, l, payload);
    if t.result.Ok? {
      WindowIffNothingLost(t.session, t.link);
    }
  }

  // A kept session goes through a cycle by draining and requesting alone.
  lemma StarvedCycle(s: Session, l: Link, inst: U16, plan: Plan)
    requires AtRest(s, l, inst) && s.reusable && Starved(s, l)
    ensures var t := Cycle(s, l, inst, plan); t.session.reusable ==> StillStarved(s, l, t.session, t.link)
  {
    hide DrainEvents, Attempt, Arrivals, GrantedBy, HasValues, LastDataCount;
    DrainKeepsStep(s.(buffer := [], fallback := None), l, inst);
    var b := Drain(s, l, inst);
    if b.result.Ok? {
      AttemptKeepsValid(b.session.(reusable := false), b.link, inst, plan.values, false);
    }
  }

  // Every cycle of the run kept the session.
  predicate AlwaysKept(s: Session, l: Link, inst: U16, plans: seq<Plan>)
    decreases |plans|
  {
    plans == [] ||
    var t := Cycle(s, l, inst, plans[0]);
    t.session.reusable && AlwaysKept(t.session, t.link, inst, plans[1..])
  }

  /**
    One lost credit starves the connection for good: over any run of cycles that keep the session, a peer that keeps to
    its credit, at most 63 chunks, is never granted another one.
   */
  lemma {:induction false} LostCreditStarves(s: Session, l: Link, inst: U16, plans: seq<Plan>)
    requires AtRest(s, l, inst) && s.reusable && Starved(s, l) && AlwaysKept(s, l, inst, plans)
    ensures var (_, s', l') := Cycles(s, l, inst, plans);
            StillStarved(s, l, s', l') && GrantedBy(l'.sent) == GrantedBy(l.sent) && 0 <= l'.credit <= 63
    decreases |plans|
  {
    hide Cycle, AtRest, Arrivals, GrantedBy, HasValues;
    if plans != [] {
      var t := Cycle(s, l, inst, plans[0]);
      CycleComesToRest(s, l, inst, plans[0]);
      StarvedCycle(s, l, inst, plans[0]);
      LostCreditStarves(t.session, t.link, inst, plans[1..]);
    }
  }

  // ---- A connection that loses its first credit ----

  // Notifications that carry nothing, all on Data.
  function Empties(n: nat): (events: seq<Event>)
    ensures |events| == n && forall i :: 0 <= i < n ==> events[i] == Arrives(DataSource, [])
  {
    if n == 0 then [] else [Arrives(DataSource, [])] + Empties(n - 1)
  }

  /**
    What the link does from the first cycle on: the subscription answers with `kept`, 63 more chunks arrive before it is
    quiet, the 65th chunk arrives instead of an answer, and the write that would grant the chunks again fails.
   */
  function UnluckyLink(kept: seq<Byte>): Link {
    Link(false, [], [Ok([0, 4, 0, 1, 0xde, 0x4a, 0])], [None, None, None, None, Some(Broken)],
         [Arrives(LastDataSource, kept)] + (Empties(63) + [Silence, Arrives(DataSource, [])]), [], 0, 0)
  }

  const SUBSCRIBE: seq<Byte> := [0x03, 0x03]
  const REQUEST: seq<Byte> := [0x05, 0x03, 0x80]

  lemma OneChunk(l: Link, payload: seq<Byte>)
    requires l.isOpen && 0 < |payload| <= WRITE_SIZE && (l.writes != [] ==> l.writes[0].None?)
    ensures WriteRequest(l, payload)
            == (Pass, l.(writes := if l.writes == [] then [] else l.writes[1..], sent := l.sent + [ToChunk(Chunk(LastData, payload))]))
  {
    var chunk := Chunk(LastData, payload);
    assert Split(payload, WRITE_SIZE) == [chunk];
    var next := Write(l, ToChunk(chunk)).1;
    assert WriteChunks(next, [chunk][1..]) == (Pass, next);
  }

  lemma {:induction false} EmptiesCount(s: Session, l: Link, inst: U16, n: nat, rest: seq<Event>)
    requires l.isOpen && l.events == Empties(n) + rest && s.chunks + n < RECEIVE_CREDIT_THRESHOLD
    requires |s.buffer| <= DEFAULT_MAX_BUFFER
    ensures DrainEvents(s, l, inst)
            == DrainEvents(s.(chunks := s.chunks + n), l.(events := rest, credit := l.credit - n), inst)
    decreases n
  {
    hide DrainEvents;
    if n == 0 {
      Sequences.Unit(rest);
    } else {
      var one := [Arrives(DataSource, [])];
      Sequences.Associative(one, Empties(n - 1), rest);
      Sequences.Halves(one, Empties(n - 1) + rest);
      EmptyIsTaken(s, l, inst);
      EmptiesCount(s.(chunks := s.chunks + 1), Taken(l), inst, n - 1, rest);
    }
  }

  lemma EmptyIsTaken(s: Session, l: Link, inst: U16)
    requires l.isOpen && l.events != [] && l.events[0] == Arrives(DataSource, [])
    requires s.chunks + 1 < RECEIVE_CREDIT_THRESHOLD && |s.buffer| <= DEFAULT_MAX_BUFFER
    ensures DrainEvents(s, l, inst) == DrainEvents(s.(chunks := s.chunks + 1), Taken(l), inst)
  {
    Sequences.Unit(s.buffer);
    var counted := s.(chunks := s.chunks + 1);
    assert Replenish(s, Taken(l), DataSource) == Turn(Ok(()), counted, Taken(l));
    assert Push(counted, DataSource, []) == (Ok(None), counted);
    hide HasValues, Control.Parse, Replenish, Push;
  }

  // The subscription's drain: one kept payload, then silence.
  lemma UnluckyDrain(l: Link, inst: U16, kept: seq<Byte>)
    requires HasValues(kept, inst) == Ok(true) && |kept| <= DEFAULT_MAX_BUFFER
    requires l.isOpen && l.events == UnluckyLink(kept).events && l.credit == 128
    ensures Drain(CLOSED.(open := true, negotiated := true), l, inst)
            == Turn(Ok(()), Session(true, true, None, [], 64, Some(kept), false),
                    l.(events := [Arrives(DataSource, [])], credit := 64))
  {
    hide HasValues, Control.Parse;
    var s := CLOSED.(open := true, negotiated := true);
    var rest := [Silence, Arrives(DataSource, [])];
    assert l.events[1..] == Empties(63) + rest;
    var first := Taken(l);
    var holding := s.(chunks := 1, fallback := Some(kept));
    assert Replenish(s, first, LastDataSource) == Turn(Ok(()), s.(chunks := 1), first);
    assert [] + kept == kept;
    assert Push(s.(chunks := 1), LastDataSource, kept) == (Ok(Some(kept)), s.(chunks := 1));
    assert DrainEvents(s, l, inst) == DrainEvents(holding, first, inst);
    EmptiesCount(holding, first, inst, 63, rest);
    var full, quiet := holding.(chunks := 64), first.(events := rest, credit := 64);
    assert rest[1..] == [Arrives(DataSource, [])];
    assert DrainEvents(full, quiet, inst) == Turn(Ok(()), full, Taken(quiet));
  }

  // The request whose credit write fails falls back on the kept values.
  lemma UnluckyRequest(s: Session, l: Link, inst: U16)
    requires s == Session(true, true, Some(inst), [], 64, s.fallback, false) && s.fallback.Some?
    requires l.isOpen && l.writes == [None, Some(Broken)] && l.events == [Arrives(DataSource, [])]
    requires l.credit == 64 && l.lost == 0
    ensures var t := RequestValues(s, l, REQUEST);
            && t.result == Ok(s.fallback.value) && t.session.reusable
            && t.link.credit == 63 && t.link.lost == 65 && t.link.events == []
  {
    hide HasValues;
    OneChunk(l, REQUEST);
    var link := WriteRequest(l, REQUEST).1;
    var after := Taken(link);
    assert link.writes == [Some(Broken)];
    var t := Replenish(s, after, DataSource);
    assert t.result == Err(Failed(Broken)) && t.link.lost == 65 && t.link.credit == 63;
    assert NextPayload(s, link) == Turn(Err(Failed(Broken)), t.session, t.link);
  }

  lemma UnluckyOpening(kept: seq<Byte>)
    ensures var l := UnluckyLink(kept);
            var d := Discover(CLOSED, l);
            && d.result.Ok? && Connect(d.session, d.link) == Turn(Ok(()), d.session, d.link)
            && var n := Negotiate(d.session, d.link, NEGOTIATION_WRITES);
               && n.result.Ok? && n.session == CLOSED.(open := true, negotiated := true)
               && n.link.isOpen && n.link.events == l.events && n.link.credit == 128 && n.link.lost == 0
               && n.link.writes == [None, None, Some(Broken)]
  {
    var l := UnluckyLink(kept);
    var ready := Discover(CLOSED, l).link;
    var link := ReadControl(ready).1;
    OpeningFrames(link);
    var first, second := ToControl(NEGOTIATION_WRITES[0]), ToControl(NEGOTIATION_WRITES[1]);
    var a := Write(link, first).1;
    var b := Write(a, second).1;
    assert link.writes[1..] == [None, None, None, Some(Broken)];
    assert a.writes[1..] == [None, None, Some(Broken)];
    assert NEGOTIATION_WRITES[1..] == [NEGOTIATION_WRITES[1]] && NEGOTIATION_WRITES[1..][1..] == [];
    assert WriteFrames(b, []) == (Pass, b);
    assert WriteFrames(a, NEGOTIATION_WRITES[1..]) == (Pass, b);
  }

  /**
    From a closed session, one cycle on such a link succeeds with the kept values and leaves a session for reuse whose
    peer may send 63 chunks and, by `LostCreditStarves`, no more after them.
   */
  lemma CreditCanBeLost(inst: U16, kept: seq<Byte>)
    requires HasValues(kept, inst) == Ok(true) && |kept| <= DEFAULT_MAX_BUFFER
    ensures AtRest(CLOSED, UnluckyLink(kept), inst)
    ensures var t := Cycle(CLOSED, UnluckyLink(kept), inst, Plan(SUBSCRIBE, REQUEST, true));
            && t.result == Ok(kept) && t.session.reusable && t.link.lost == 65 && t.link.credit == 63
            && Starved(t.session, t.link) && !WindowHolds(t.link)
  {
    hide HasValues, DrainEvents, RequestValues, Drain, Negotiate, Discover, WriteRequest, Empties;
    UnluckyOpening(kept);
    var d := Discover(CLOSED, UnluckyLink(kept));
    var n := Negotiate(d.session, d.link, NEGOTIATION_WRITES);
    OneChunk(n.link, SUBSCRIBE);
    var link := WriteRequest(n.link, SUBSCRIBE).1;
    UnluckyDrain(link, inst, kept);
    var b := Subscribe(n.session, n.link, inst, SUBSCRIBE);
    assert [None, None, Some(Broken)][1..] == [None, Some(Broken)];
    UnluckyRequest(b.session, b.link, inst);
    CycleComesToRest(CLOSED, UnluckyLink(kept), inst, Plan(SUBSCRIBE, REQUEST, true));
  }

  /** There are such values: a payload of one value record of the instance. */
  lemma KeptValuesExist(inst: U16) returns (kept: seq<Byte>)
    ensures HasValues(kept, inst) == Ok(true) && |kept| <= DEFAULT_MAX_BUFFER
  {
    var r := Value(inst, 0, []);
    RecordLaws.RecordStreamRoundTrip([r]);
    var items := RecordLaws.SerialiseAll([r]);
    var fields := [UInt(0x08), UInt(inst), UInt(0), Item.Bytes([])];
    assert RecordLaws.SerialiseAll([r][1..]) == [] && items == fields + [] == fields;
    HeadsAreSmall(items);
    kept := EncodeAll(items);
    hide EncodeAll, ParseStream;
    assert ParseStream(kept) == Ok([r]);
  }

  // Items of a head alone.
  predicate HeadOnly(x: Item) {
    x == Item.Bytes([]) || (x.UInt? && x.n < 0x1_0000_0000_0000_0000)
  }

  lemma HeadIsShort(x: Item)
    requires HeadOnly(x)
    ensures Encodable(x) && StringsCapped(x) && Within(x, MAX_DEPTH) && Nodes(x) == 1 && |Encode(x)| <= 9
  {
  }

  lemma {:induction false} HeadsAreSmall(xs: seq<Item>)
    requires forall i :: 0 <= i < |xs| ==> HeadOnly(xs[i])
    ensures AllEncodable(xs) && AllStringsCapped(xs) && AllWithin(xs, MAX_DEPTH) && NodesOf(xs) == |xs|
    ensures |EncodeAll(xs)| <= 9 * |xs|
  {
    hide HeadOnly, Encodable, StringsCapped, Within, Nodes, Encode;
    if xs != [] {
      HeadIsShort(xs[0]);
      HeadsAreSmall(xs[1..]);
    }
  }
}

/**
  A VE.Smart session as a function of what the link does: which writes fail and which notifications arrive, in order.
  Every step gives its result, the session it leaves and the link it leaves.
 */
module Sessions {
  import opened Wrappers
  import opened Bytes
  import opened Records
  import opened Frames
  import Control

  const RECEIVE_CREDIT_THRESHOLD: nat := 0x41
  const WRITE_SIZE: nat := 20
  const CONTROL_INFO_LENGTH: nat := 7

  // The writes that open a session; the second one grants the peer 128 chunks.
  const NEGOTIATION_WRITES: seq<seq<Byte>> := [[0xfa, 0x80, 0xff], [0xf9, 0x80]]

  datatype TransportError = Expired | NotOpen | Stopped | Broken

  datatype BleError = Timeout | PeerControl(code: U16) | Disconnected | Other | Failed(error: TransportError)

  function MapTransport(e: TransportError): BleError {
    match e
    case Expired => Timeout
    case Stopped => Disconnected
    case NotOpen => BleError.Other
    case Broken => Failed(e)
  }

  // ---- The link ----

  datatype Source = ControlSource | DataSource | LastDataSource

  // What waiting for a notification comes to; silence lasts until whoever waits gives up.
  datatype Event = Arrives(source: Source, value: seq<Byte>) | Fails(error: TransportError) | Silence

  datatype Sent = ToControl(frame: seq<Byte>) | ToChunk(chunk: Chunk)

  /**
    The transport and the peer behind it. The scripts say what the coming opens, reads, writes and waits do; a script
    at its end means success, and silence for waits. `credit` is how many chunks the peer may still send, `lost` the
    chunks of credit in writes that failed.
   */
  datatype Link = Link(isOpen: bool, opens: seq<Option<TransportError>>, infos: seq<Result<seq<Byte>, TransportError>>,
                       writes: seq<Option<TransportError>>, events: seq<Event>, sent: seq<Sent>,
                       credit: int, lost: nat)

  // The chunks a control frame grants.
  function Granted(frame: Sent): nat {
    if frame.ToControl? && |frame.frame| == 2 && frame.frame[0] == 0xf9 then frame.frame[1] else 0
  }

  function Open(l: Link): (Outcome<TransportError>, Link) {
    if l.isOpen then (Pass, l)
    else
      var left := if l.opens == [] then [] else l.opens[1..];
      if l.opens != [] && l.opens[0].Some? then (Fail(l.opens[0].value), l.(opens := left))
      else (Pass, l.(opens := left, isOpen := true, credit := 0, lost := 0))
  }

  function Close(l: Link): Link {
    l.(isOpen := false, credit := 0, lost := 0)
  }

  function ReadControl(l: Link): (Result<seq<Byte>, TransportError>, Link) {
    if !l.isOpen then (Err(NotOpen), l)
    else if l.infos == [] then (Err(Broken), l)
    else (l.infos[0], l.(infos := l.infos[1..]))
  }

  function Write(l: Link, frame: Sent): (r: (Outcome<TransportError>, Link))
    ensures r.1.events == l.events && r.1.isOpen == l.isOpen
  {
    if !l.isOpen then (Fail(NotOpen), l)
    else
      var left := if l.writes == [] then [] else l.writes[1..];
      if l.writes != [] && l.writes[0].Some? then
        (Fail(l.writes[0].value), l.(writes := left, lost := l.lost + Granted(frame)))
      else
        (Pass, l.(writes := left, sent := l.sent + [frame], credit := l.credit + Granted(frame)))
  }

  // The link once its next event is taken; a chunk uses up one of the peer's.
  function Taken(l: Link): Link
    requires l.events != []
  {
    var chunk := l.events[0].Arrives? && l.events[0].source != ControlSource;
    l.(events := l.events[1..], credit := if chunk then l.credit - 1 else l.credit)
  }

  // ---- The session ----

  datatype Session = Session(open: bool, negotiated: bool, subscribed: Option<U16>, buffer: seq<Byte>, chunks: nat,
                             fallback: Option<seq<Byte>>, reusable: bool)

  const CLOSED: Session := Session(false, false, None, [], 0, None, false)

  datatype Turn<+R> = Turn(result: Result<R, BleError>, session: Session, link: Link)

  // The count of unacknowledged chunks after a notification, and the credit to grant now.
  function Record(chunks: nat, source: Source): (nat, Option<Byte>) {
    var counted := if source == ControlSource || chunks >= 255 then chunks else chunks + 1;
    if RECEIVE_CREDIT_THRESHOLD <= counted <= 255 then (0, Some(counted)) else (counted, None)
  }

  function Replenish(s: Session, l: Link, source: Source): (t: Turn<()>)
    ensures t.link.events == l.events
  {
    var (chunks, grant) := Record(s.chunks, source);
    var s := s.(chunks := chunks);
    match grant
    case None => Turn(Ok(()), s, l)
    case Some(n) =>
      var (status, l) := Write(l, ToControl([0xf9, n]));
      Turn(if status.Fail? then Err(MapTransport(status.error)) else Ok(()), s, l)
  }

  function AnyValue(rs: seq<Response>, inst: U16): bool {
    rs != [] && ((rs[0].Value? && rs[0].instance == inst) || AnyValue(rs[1..], inst))
  }

  function HasValues(payload: seq<Byte>, inst: U16): Result<bool, BleError> {
    match ParseStream(payload)
    case Ok(rs) => Ok(AnyValue(rs, inst))
    case Err(_) => Err(BleError.Other)
  }

  // Sends the chunks until one fails.
  function WriteChunks(l: Link, chunks: seq<Chunk>): (r: (Outcome<BleError>, Link))
    ensures r.1.events == l.events && r.1.isOpen == l.isOpen
    decreases |chunks|
  {
    if chunks == [] then (Pass, l)
    else
      var (status, next) := Write(l, ToChunk(chunks[0]));
      if status.Fail? then (Fail(MapTransport(status.error)), next) else WriteChunks(next, chunks[1..])
  }

  // The split of a payload, as `Frames.SplitRequest` gives it.
  function Split(payload: seq<Byte>, size: nat): (chunks: seq<Chunk>)
    requires payload != [] && size > 0
    ensures IsSplit(chunks, payload, size)
    decreases |payload|
  {
    if |payload| <= size then
      JoinedMore([], Chunk(LastData, payload));
      assert [] + [Chunk(LastData, payload)] == [Chunk(LastData, payload)];
      [Chunk(LastData, payload)]
    else
      [Chunk(Data, payload[..size])] + Split(payload[size..], size)
  }

  function WriteRequest(l: Link, payload: seq<Byte>): (r: (Outcome<BleError>, Link))
    ensures r.1.events == l.events && r.1.isOpen == l.isOpen
  {
    if payload == [] then (Fail(BleError.Other), l) else WriteChunks(l, Split(payload, WRITE_SIZE))
  }

  // A chunk at the reassembler.
  function Push(s: Session, source: Source, value: seq<Byte>): (Result<Option<seq<Byte>>, BleError>, Session)
    requires source != ControlSource
  {
    var p := Pushing(s.buffer, DEFAULT_MAX_BUFFER, Chunk(if source == DataSource then Data else LastData, value));
    (if p.result.Err? then Err(BleError.Other) else Ok(p.result.value), s.(buffer := p.buffer))
  }

  // The next complete payload, or what ends the wait for it.
  function NextPayload(s: Session, l: Link): (t: Turn<seq<Byte>>)
    ensures t.result.Ok? ==> |t.link.events| < |l.events|
    ensures |t.link.events| <= |l.events|
    decreases |l.events|
  {
    if !l.isOpen then Turn(Err(MapTransport(NotOpen)), s, l)
    else if l.events == [] then Turn(Err(Timeout), s, l)
    else
      match l.events[0]
      case Silence => Turn(Err(Timeout), s, Taken(l))
      case Fails(e) => Turn(Err(MapTransport(e)), s, Taken(l))
      case Arrives(source, value) =>
        var t := Replenish(s, Taken(l), source);
        if t.result.Err? then Turn(Err(t.result.error), t.session, t.link)
        else if source == ControlSource then
          match Control.Parse(value)
          case Ok(Error(code)) => Turn(Err(PeerControl(code)), t.session, t.link)
          case Ok(ClearBuffer) => NextPayload(t.session.(buffer := []), t.link)
          case _ => NextPayload(t.session, t.link)
        else
          var (pushed, session) := Push(t.session, source, value);
          match pushed
          case Err(e) => Turn(Err(e), session, t.link)
          case Ok(None) => NextPayload(session, t.link)
          case Ok(Some(payload)) => Turn(Ok(payload), session, t.link)
  }

  // Everything that arrives until it is quiet, keeping the last payload with values of the instance.
  function DrainEvents(s: Session, l: Link, inst: U16): (t: Turn<()>)
    ensures |t.link.events| <= |l.events|
    decreases |l.events|
  {
    if !l.isOpen then Turn(Err(MapTransport(NotOpen)), s, l)
    else if l.events == [] then Turn(Ok(()), s, l)
    else
      match l.events[0]
      case Silence => Turn(Ok(()), s, Taken(l))
      case Fails(e) => Turn(if e == Expired then Ok(()) else Err(MapTransport(e)), s, Taken(l))
      case Arrives(source, value) =>
        var t := Replenish(s, Taken(l), source);
        if t.result.Err? then t
        else if source == ControlSource then
          var cleared := Control.Parse(value) == Ok(Control.ClearBuffer);
          DrainEvents(if cleared then t.session.(buffer := []) else t.session, t.link, inst)
        else
          var (pushed, session) := Push(t.session, source, value);
          match pushed
          case Err(e) => Turn(Err(e), session, t.link)
          case Ok(None) => DrainEvents(session, t.link, inst)
          case Ok(Some(payload)) =>
            var keeps := HasValues(payload, inst) == Ok(true);
            DrainEvents(if keeps then session.(fallback := Some(payload)) else session, t.link, inst)
  }

  function Drain(s: Session, l: Link, inst: U16): Turn<()> {
    DrainEvents(s.(buffer := [], fallback := None), l, inst)
  }

  // The next payload with values of the instance; unrelated ones are passed over, malformed ones end the wait.
  function WaitForValues(s: Session, l: Link, inst: U16): (t: Turn<seq<Byte>>)
    decreases |l.events|
  {
    var t := NextPayload(s, l);
    if t.result.Err? then t
    else
      match HasValues(t.result.value, inst)
      case Err(e) => Turn(Err(e), t.session, t.link)
      case Ok(true) => t
      case Ok(false) => WaitForValues(t.session, t.link, inst)
  }

  // ---- The phases ----

  function Discover(s: Session, l: Link): Turn<()> {
    var (status, link) := Open(l);
    if status.Fail? then Turn(Err(MapTransport(status.error)), s, link)
    else Turn(Ok(()), s.(open := true), link)
  }

  function Connect(s: Session, l: Link): Turn<()> {
    Turn(if s.open then Ok(()) else Err(Disconnected), s, l)
  }

  function WriteFrames(l: Link, frames: seq<seq<Byte>>): (Outcome<BleError>, Link)
    decreases |frames|
  {
    if frames == [] then (Pass, l)
    else
      var (status, next) := Write(l, ToControl(frames[0]));
      if status.Fail? then (Fail(MapTransport(status.error)), next) else WriteFrames(next, frames[1..])
  }

  function Negotiate(s: Session, l: Link, frames: seq<seq<Byte>>): Turn<()> {
    if s.negotiated then Turn(Ok(()), s, l)
    else
      var (info, link) := ReadControl(l);
      if info.Err? then Turn(Err(MapTransport(info.error)), s, link)
      else if |info.value| != CONTROL_INFO_LENGTH then Turn(Err(BleError.Other), s, link)
      else
        var (status, link) := WriteFrames(link, frames);
        if status.Fail? then Turn(Err(status.error), s, link)
        else Turn(Ok(()), s.(negotiated := true, reusable := false), link)
  }

  function Subscribe(s: Session, l: Link, inst: U16, payload: seq<Byte>): Turn<()> {
    if !s.negotiated then Turn(Err(BleError.Other), s, l)
    else if s.subscribed == Some(inst) then Drain(s, l, inst)
    else
      var (status, link) := WriteRequest(l, payload);
      if status.Fail? then Turn(Err(status.error), s, link)
      else
        var t := Drain(s, link, inst);
        if t.result.Err? then t else t.(session := t.session.(subscribed := Some(inst)))
  }

  // One request and the wait for its answer; `last` is the attempt nothing follows.
  function Attempt(s: Session, l: Link, inst: U16, payload: seq<Byte>, last: bool): Turn<seq<Byte>>
    decreases !last
  {
    var s := s.(buffer := []);
    var (status, link) := WriteRequest(l, payload);
    if status.Fail? then Turn(Err(status.error), s, link)
    else
      var t := WaitForValues(s, link, inst);
      if t.result.Ok? then t.(session := t.session.(reusable := true))
      else if t.session.fallback.Some? then
        Turn(Ok(t.session.fallback.value), t.session.(fallback := None, reusable := true), t.link)
      else if !last && t.result.error == Timeout then Attempt(t.session, t.link, inst, payload, true)
      else t
  }

  function RequestValues(s: Session, l: Link, payload: seq<Byte>): Turn<seq<Byte>> {
    if s.subscribed.None? then Turn(Err(BleError.Other), s, l)
    else Attempt(s.(reusable := false), l, s.subscribed.value, payload, false)
  }

  function Disconnect(s: Session, l: Link): Turn<()> {
    Turn(Ok(()), CLOSED, Close(l))
  }

  function FinishCycle(s: Session, l: Link): Turn<()> {
    if s.reusable then Turn(Ok(()), s, l) else Disconnect(s, l)
  }
}

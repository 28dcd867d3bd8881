/**
  The session as an object over a transport, a reassembler and a credit counter. Every method leaves the object and
  its transport as the function of the same name in `Sessions` says, so the laws of `SessionLaws` are laws of it.
 */
module Client {
  import opened Wrappers
  import opened Bytes
  import opened Records
  import opened Frames
  import opened Sessions
  import Control

  class Transport {
    var link: Link

    constructor (script: Link)
      ensures link == script
    {
      link := script;
    }

    method Open() returns (status: Outcome<TransportError>)
      modifies this
      ensures (status, link) == Sessions.Open(old(link))
    {
      var (s, l) := Sessions.Open(link);
      status, link := s, l;
    }

    method Close()
      modifies this
      ensures link == Sessions.Close(old(link))
    {
      link := Sessions.Close(link);
    }

    method ReadControl() returns (r: Result<seq<Byte>, TransportError>)
      modifies this
      ensures (r, link) == Sessions.ReadControl(old(link))
    {
      var (info, l) := Sessions.ReadControl(link);
      r, link := info, l;
    }

    method Write(frame: Sent) returns (status: Outcome<TransportError>)
      modifies this
      ensures (status, link) == Sessions.Write(old(link), frame)
    {
      var (s, l) := Sessions.Write(link, frame);
      status, link := s, l;
    }

    // The next notification, a failure of the transport, or silence until the caller gives up.
    method NextNotification() returns (e: Event)
      modifies this
      ensures !old(link).isOpen ==> e == Fails(NotOpen) && link == old(link)
      ensures old(link).isOpen && old(link).events == [] ==> e == Silence && link == old(link)
      ensures old(link).isOpen && old(link).events != [] ==> e == old(link).events[0] && link == Taken(old(link))
    {
      if !link.isOpen {
        e := Fails(NotOpen);
      } else if link.events == [] {
        e := Silence;
      } else {
        e := link.events[0];
        link := Taken(link);
      }
    }
  }

  class ReceiveCredit {
    var pendingChunks: nat

    constructor ()
      ensures pendingChunks == 0
    {
      pendingChunks := 0;
    }

    method Record(source: Source) returns (grant: Option<Byte>)
      modifies this
      ensures (pendingChunks, grant) == Sessions.Record(old(pendingChunks), source)
    {
      if source != ControlSource && pendingChunks < 255 {
        pendingChunks := pendingChunks + 1;
      }
      if RECEIVE_CREDIT_THRESHOLD <= pendingChunks <= 255 {
        grant := Some(pendingChunks);
        pendingChunks := 0;
      } else {
        grant := None;
      }
    }

    method Clear()
      modifies this
      ensures pendingChunks == 0
    {
      pendingChunks := 0;
    }
  }

  class VeSmartSession {
    const transport: Transport
    var open: bool
    var negotiated: bool
    var subscribedInstance: Option<U16>
    const pending: Reassembler
    const receiveCredit: ReceiveCredit
    var fallbackValues: Option<seq<Byte>>
    var reusable: bool

    constructor (script: Link)
      ensures Sound() && fresh(transport) && fresh(pending) && fresh(receiveCredit)
      ensures Snapshot() == CLOSED && transport.link == script
    {
      transport := new Transport(script);
      open, negotiated, subscribedInstance := false, false, None;
      pending := new Reassembler();
      receiveCredit := new ReceiveCredit();
      fallbackValues, reusable := None, false;
    }

    ghost predicate Sound()
      reads this, pending
    {
      pending.Valid() && pending.max == DEFAULT_MAX_BUFFER
    }

    ghost function Snapshot(): Session
      reads this, pending, receiveCredit
    {
      Session(open, negotiated, subscribedInstance, pending.buffer, receiveCredit.pendingChunks, fallbackValues, reusable)
    }

    ghost predicate Became<R>(r: Result<R, BleError>, t: Turn<R>)
      reads this, transport, pending, receiveCredit
    {
      Sound() && r == t.result && Snapshot() == t.session && transport.link == t.link
    }

    method WriteRequest(payload: seq<Byte>) returns (r: Result<(), BleError>)
      requires Sound()
      modifies transport
      ensures Sound() && Snapshot() == old(Snapshot())
      ensures var (status, link) := Sessions.WriteRequest(old(transport.link), payload);
              transport.link == link && r == if status.Fail? then Err(status.error) else Ok(())
    {
      hide Split, Write;
      if payload == [] {
        return Err(BleError.Other);
      }
      var split := SplitRequest(payload, WRITE_SIZE);
      SplitIsUnique(split.value, Split(payload, WRITE_SIZE), payload, WRITE_SIZE);
      var chunks := split.value;
      var k := 0;
      while k < |chunks|
        invariant 0 <= k <= |chunks|
        invariant WriteChunks(transport.link, chunks[k..]) == WriteChunks(old(transport.link), chunks)
      {
        var status := transport.Write(ToChunk(chunks[k]));
        assert chunks[k..][1..] == chunks[k + 1..];
        if status.Fail? {
          return Err(MapTransport(status.error));
        }
        k := k + 1;
      }
      assert chunks[k..] == [];
      r := Ok(());
    }

    method ReplenishReceiveCredit(source: Source) returns (r: Result<(), BleError>)
      requires Sound()
      modifies transport, receiveCredit
      ensures Became(r, Replenish(old(Snapshot()), old(transport.link), source))
    {
      var grant := receiveCredit.Record(source);
      if grant.Some? {
        var status := transport.Write(ToControl([0xf9, grant.value]));
        if status.Fail? {
          return Err(MapTransport(status.error));
        }
      }
      r := Ok(());
    }

    // A chunk goes to the reassembler, which may complete a payload.
    method Accept(source: Source, value: seq<Byte>) returns (r: Result<Option<seq<Byte>>, BleError>)
      requires Sound() && source != ControlSource
      modifies pending
      ensures Sound() && (r, Snapshot()) == Push(old(Snapshot()), source, value)
    {
      var pushed := pending.Push(Chunk(if source == DataSource then Data else LastData, value));
      r := if pushed.Err? then Err(BleError.Other) else Ok(pushed.value);
    }

    method NextPayload() returns (r: Result<seq<Byte>, BleError>)
      requires Sound()
      modifies transport, receiveCredit, pending
      ensures Became(r, Sessions.NextPayload(old(Snapshot()), old(transport.link)))
    {
      hide Replenish, Push, Control.Parse;
      while true
        invariant Sound()
        invariant Sessions.NextPayload(Snapshot(), transport.link) == Sessions.NextPayload(old(Snapshot()), old(transport.link))
        decreases |transport.link.events|
      {
        var e := transport.NextNotification();
        match e {
          case Silence => return Err(Timeout);
          case Fails(error) => return Err(MapTransport(error));
          case Arrives(source, value) =>
            var _ :- ReplenishReceiveCredit(source);
            if source == ControlSource {
              match Control.Parse(value) {
                case Ok(Error(code)) => return Err(PeerControl(code));
                case Ok(ClearBuffer) => pending.Clear();
                case _ =>
              }
            } else {
              var payload :- Accept(source, value);
              if payload.Some? {
                return Ok(payload.value);
              }
            }
        }
      }
    }

    method DrainCompletedPayloads(inst: U16) returns (r: Result<(), BleError>)
      requires Sound()
      modifies this`fallbackValues, transport, receiveCredit, pending
      ensures Became(r, Drain(old(Snapshot()), old(transport.link), inst))
    {
      hide Replenish, Push, Control.Parse, HasValues;
      pending.Clear();
      fallbackValues := None;
      while true
        invariant Sound()
        invariant DrainEvents(Snapshot(), transport.link, inst) == Drain(old(Snapshot()), old(transport.link), inst)
        decreases |transport.link.events|
      {
        var e := transport.NextNotification();
        match e {
          case Silence => return Ok(());
          case Fails(error) => return if error == Expired then Ok(()) else Err(MapTransport(error));
          case Arrives(source, value) =>
            var _ :- ReplenishReceiveCredit(source);
            if source == ControlSource {
              if Control.Parse(value) == Ok(Control.ClearBuffer) {
                pending.Clear();
              }
            } else {
              var payload :- Accept(source, value);
              if payload.Some? && HasValues(payload.value, inst) == Ok(true) {
                fallbackValues := payload;
              }
            }
        }
      }
    }

    method WaitForValues(inst: U16) returns (r: Result<seq<Byte>, BleError>)
      requires Sound()
      modifies transport, receiveCredit, pending
      ensures Became(r, Sessions.WaitForValues(old(Snapshot()), old(transport.link), inst))
    {
      hide Sessions.NextPayload, HasValues;
      while true
        invariant Sound()
        invariant Sessions.WaitForValues(Snapshot(), transport.link, inst)
                  == Sessions.WaitForValues(old(Snapshot()), old(transport.link), inst)
        decreases |transport.link.events|
      {
        var payload :- NextPayload();
        var correlated :- HasValues(payload, inst);
        if correlated {
          return Ok(payload);
        }
      }
    }

    method Discover() returns (r: Result<(), BleError>)
      requires Sound()
      modifies this`open, transport
      ensures Became(r, Sessions.Discover(old(Snapshot()), old(transport.link)))
    {
      var status := transport.Open();
      if status.Fail? {
        return Err(MapTransport(status.error));
      }
      open := true;
      r := Ok(());
    }

    method Connect() returns (r: Result<(), BleError>)
      requires Sound()
      ensures Became(r, Sessions.Connect(Snapshot(), transport.link))
    {
      r := if open then Ok(()) else Err(Disconnected);
    }

    method Negotiate(frames: seq<seq<Byte>>) returns (r: Result<(), BleError>)
      requires Sound()
      modifies this`negotiated, this`reusable, transport
      ensures Became(r, Sessions.Negotiate(old(Snapshot()), old(transport.link), frames))
    {
      hide Write, Sessions.ReadControl;
      if negotiated {
        return Ok(());
      }
      var info := transport.ReadControl();
      if info.Err? {
        return Err(MapTransport(info.error));
      }
      if |info.value| != CONTROL_INFO_LENGTH {
        return Err(BleError.Other);
      }
      ghost var before := transport.link;
      var k := 0;
      while k < |frames|
        invariant 0 <= k <= |frames| && Sound() && Snapshot() == old(Snapshot())
        invariant WriteFrames(transport.link, frames[k..]) == WriteFrames(before, frames)
      {
        var status := transport.Write(ToControl(frames[k]));
        assert frames[k..][1..] == frames[k + 1..];
        if status.Fail? {
          return Err(MapTransport(status.error));
        }
        k := k + 1;
      }
      assert frames[k..] == [];
      negotiated := true;
      reusable := false;
      r := Ok(());
    }

    method Subscribe(inst: U16, payload: seq<Byte>) returns (r: Result<(), BleError>)
      requires Sound()
      modifies this`subscribedInstance, this`fallbackValues, transport, receiveCredit, pending
      ensures Became(r, Sessions.Subscribe(old(Snapshot()), old(transport.link), inst, payload))
    {
      hide Drain, Sessions.WriteRequest;
      if !negotiated {
        return Err(BleError.Other);
      }
      if subscribedInstance == Some(inst) {
        r := DrainCompletedPayloads(inst);
        return;
      }
      var _ :- WriteRequest(payload);
      var _ :- DrainCompletedPayloads(inst);
      subscribedInstance := Some(inst);
      r := Ok(());
    }

    method RequestValues(payload: seq<Byte>) returns (r: Result<seq<Byte>, BleError>)
      requires Sound()
      modifies this`reusable, this`fallbackValues, transport, receiveCredit, pending
      ensures Became(r, Sessions.RequestValues(old(Snapshot()), old(transport.link), payload))
    {
      hide Sessions.WriteRequest, Sessions.WaitForValues;
      if subscribedInstance.None? {
        return Err(BleError.Other);
      }
      var inst := subscribedInstance.value;
      reusable := false;
      ghost var total := Attempt(Snapshot(), transport.link, inst, payload, false);
      for attempt := 1 to 3
        invariant Sound() && subscribedInstance == Some(inst)
        invariant attempt <= 2 && Attempt(Snapshot(), transport.link, inst, payload, attempt == 2) == total
      {
        pending.Clear();
        var _ :- WriteRequest(payload);
        r := WaitForValues(inst);
        if r.Ok? {
          reusable := true;
          return;
        }
        if fallbackValues.Some? {
          r := Ok(fallbackValues.value);
          fallbackValues := None;
          reusable := true;
          return;
        }
        if attempt == 2 || r.error != Timeout {
          return;
        }
      }
      assert false;
    }

    method FinishCycle() returns (r: Result<(), BleError>)
      requires Sound()
      modifies this, transport, receiveCredit, pending
      ensures Became(r, Sessions.FinishCycle(old(Snapshot()), old(transport.link)))
    {
      if reusable {
        return Ok(());
      }
      r := Disconnect();
    }

    method Disconnect() returns (r: Result<(), BleError>)
      requires Sound()
      modifies this, transport, receiveCredit, pending
      ensures Became(r, Sessions.Disconnect(old(Snapshot()), old(transport.link)))
    {
      transport.Close();
      open, negotiated, subscribedInstance := false, false, None;
      pending.Clear();
      receiveCredit.Clear();
      fallbackValues, reusable := None, false;
      r := Ok(());
    }
  }
}

/**
 * Newline-delimited frames: the worker channel, the worker control channel and the greeter socket.
 * Payloads are byte sequences; a stream is what is left to read and how it ends.
 */
module Framing {
  import opened Text

  type Byte = x: int | 0 <= x < 256
  const NEWLINE: Byte := 10

  datatype Channel = Worker | Control | Greeter

  function Limit(c: Channel): nat {
    match c
    case Worker => 65536
    case Control => 4096
    case Greeter => 65536
  }

  datatype FrameError = Io | Protocol | TooLarge | Truncated

  /** How a stream ends once its bytes are read. */
  datatype Ending = Eof | BrokenPipe

  predicate LineFree(payload: seq<Byte>) {
    NEWLINE !in payload
  }

  /** The payloads a channel carries; only the worker channel refuses an empty line itself. */
  predicate Fits(c: Channel, payload: seq<Byte>) {
    |payload| + 1 <= Limit(c) && (c.Worker? ==> payload != [])
  }

  // ---------------------------------------------------------------- writing

  /** The bytes of a list of frames. */
  function Encode(payloads: seq<seq<Byte>>): seq<Byte> {
    if payloads == [] then [] else payloads[0] + [NEWLINE] + Encode(payloads[1..])
  }

  lemma {:induction false} EncodeOneMore(payloads: seq<seq<Byte>>, payload: seq<Byte>)
    ensures Encode(payloads + [payload]) == Encode(payloads) + payload + [NEWLINE]
  {
    if payloads == [] {
      assert payloads + [payload] == [payload];
      assert Encode([payload]) == payload + [NEWLINE] + Encode([]);
    } else {
      assert (payloads + [payload])[1..] == payloads[1..] + [payload];
      EncodeOneMore(payloads[1..], payload);
    }
  }

  /** A writer and the payloads it took. */
  class Output {
    var bytes: seq<Byte>
    ghost var written: seq<seq<Byte>>

    ghost predicate Valid()
      reads this
    {
      bytes == Encode(written)
    }

    constructor ()
      ensures Valid() && written == []
    {
      bytes, written := [], [];
    }

    /**
     * Worker and control frames are refused when the newline would pass the limit. The stream takes
     * `taken` bytes before it fails, if it fails, and a flush may fail after all of them.
     */
    method WriteFrame(c: Channel, payload: seq<Byte>, taken: nat, flushOk: bool) returns (r: Result<(), FrameError>)
      requires !c.Greeter?
      modifies this
      ensures |payload| + 1 > Limit(c) ==> r == Err(Protocol) && bytes == old(bytes) && written == old(written)
      ensures |payload| + 1 <= Limit(c) ==>
        && bytes == old(bytes) + Delivered(payload, taken)
        && r == (if |payload| < taken && flushOk then Ok(()) else Err(Io))
        && written == (if r.Ok? then old(written) + [payload] else old(written))
      ensures old(Valid()) && r != Err(Io) ==> Valid()
    {
      if |payload| + 1 > Limit(c) {
        return Err(Protocol);
      }
      if taken < |payload| {
        bytes := bytes + payload[..taken];
        assert Delivered(payload, taken) == payload[..taken];
        return Err(Io);
      }
      ghost var before := bytes;
      bytes := bytes + payload;
      if taken == |payload| {
        assert Delivered(payload, taken) == payload;
        return Err(Io);
      }
      bytes := bytes + [NEWLINE];
      assert before + payload + [NEWLINE] == before + Delivered(payload, taken);
      if !flushOk {
        return Err(Io);
      }
      EncodeOneMore(written, payload);
      written := written + [payload];
      return Ok(());
    }
  }

  /** What a stream that takes so many bytes holds of a frame. */
  function Delivered(payload: seq<Byte>, taken: nat): seq<Byte> {
    if |payload| < taken then payload + [NEWLINE] else payload[..taken]
  }

  // ---------------------------------------------------------------- reading

  /** A read: its result and the bytes left. */
  datatype Reading = Reading(result: Result<seq<Byte>, FrameError>, rest: seq<Byte>)

  function EndOfStream(c: Channel, ending: Ending): FrameError {
    match c
    case Worker => if ending.Eof? then Protocol else Io
    case Control => Io
    case Greeter => if ending.Eof? then Truncated else Io
  }

  /** A read that has buffered `buffer` so far. */
  function Read(c: Channel, data: seq<Byte>, ending: Ending, buffer: seq<Byte>): Reading
    decreases |data|
  {
    if c.Greeter? && |buffer| >= Limit(c) then Reading(Err(TooLarge), data)
    else if data == [] then Reading(Err(EndOfStream(c, ending)), [])
    else if data[0] == NEWLINE then
      if c.Greeter? then Reading(Ok(buffer), data[1..])
      else if |buffer| + 1 > Limit(c) || (c.Worker? && buffer == []) then Reading(Err(Protocol), data[1..])
      else Reading(Ok(buffer), data[1..])
    else if c.Worker? && |buffer| + 1 > Limit(c) then Reading(Err(Protocol), data[1..])
    else if c.Control? && |buffer| + 1 >= Limit(c) then Reading(Err(Protocol), data[1..])
    else Read(c, data[1..], ending, buffer + [data[0]])
  }

  class Input {
    var data: seq<Byte>
    const ending: Ending

    constructor (data: seq<Byte>, ending: Ending)
      ensures this.data == data && this.ending == ending
    {
      this.data, this.ending := data, ending;
    }

    /** The worker channel: the limit is looked at after each byte, and once more at the newline. */
    method ReadEnvelope() returns (r: Result<seq<Byte>, FrameError>)
      modifies this
      ensures Reading(r, data) == Read(Worker, old(data), ending, [])
    {
      var bytes: seq<Byte> := [];
      while true
        invariant Read(Worker, old(data), ending, []) == Read(Worker, data, ending, bytes)
        invariant LineFree(bytes)
        decreases |data|
      {
        if data == [] {
          return Err(if ending.Eof? then Protocol else Io);
        }
        var byte := data[0];
        data := data[1..];
        bytes := bytes + [byte];
        if byte == NEWLINE {
          break;
        }
        if |bytes| > Limit(Worker) {
          return Err(Protocol);
        }
      }
      if bytes == [] || |bytes| > Limit(Worker) {
        return Err(Protocol);
      }
      var line := bytes[..|bytes| - 1];
      if line == [] || NEWLINE in line {
        return Err(Protocol);
      }
      return Ok(line);
    }

    /** The control channel: a buffer that reached the limit without a newline is refused at once. */
    method ReadControl() returns (r: Result<seq<Byte>, FrameError>)
      modifies this
      ensures Reading(r, data) == Read(Control, old(data), ending, [])
    {
      var bytes: seq<Byte> := [];
      while true
        invariant Read(Control, old(data), ending, []) == Read(Control, data, ending, bytes)
        decreases |data|
      {
        if data == [] {
          return Err(Io);
        }
        var byte := data[0];
        data := data[1..];
        bytes := bytes + [byte];
        if byte == NEWLINE {
          if |bytes| <= Limit(Control) {
            return Ok(bytes[..|bytes| - 1]);
          }
          return Err(Protocol);
        }
        if |bytes| >= Limit(Control) {
          return Err(Protocol);
        }
      }
    }

    /** The greeter socket: the limit is looked at before each byte. */
    method ReadGreeterFrame() returns (r: Result<seq<Byte>, FrameError>)
      modifies this
      ensures Reading(r, data) == Read(Greeter, old(data), ending, [])
    {
      var frame: seq<Byte> := [];
      while true
        invariant Read(Greeter, old(data), ending, []) == Read(Greeter, data, ending, frame)
        decreases |data|
      {
        if |frame| >= Limit(Greeter) {
          return Err(TooLarge);
        }
        if data == [] {
          return Err(if ending.Eof? then Truncated else Io);
        }
        var byte := data[0];
        data := data[1..];
        frame := frame + [byte];
        if byte == NEWLINE {
          return Ok(frame[..|frame| - 1]);
        }
      }
    }
  }

  // ---------------------------------------------------------------- laws

  /** One frame: it comes back exactly when it fits, and then the rest of the stream is untouched. */
  lemma {:induction false} ReadThrough(c: Channel, buffer: seq<Byte>, payload: seq<Byte>, tail: seq<Byte>,
      ending: Ending)
    requires LineFree(payload)
    ensures var r := Read(c, payload + [NEWLINE] + tail, ending, buffer);
      && (r.result == Ok(buffer + payload) <==> Fits(c, buffer + payload))
      && (r.result.Ok? ==> r.result == Ok(buffer + payload) && r.rest == tail)
    decreases |payload|
  {
    var data := payload + [NEWLINE] + tail;
    if payload == [] {
      assert data[1..] == tail;
      assert buffer + payload == buffer;
    } else {
      assert data[1..] == payload[1..] + [NEWLINE] + tail;
      assert buffer + [payload[0]] + payload[1..] == buffer + payload;
      ReadThrough(c, buffer + [payload[0]], payload[1..], tail, ending);
    }
  }

  lemma FrameRoundTrip(c: Channel, payload: seq<Byte>, tail: seq<Byte>, ending: Ending)
    requires LineFree(payload)
    ensures var r := Read(c, payload + [NEWLINE] + tail, ending, []);
      if Fits(c, payload) then r == Reading(Ok(payload), tail) else r.result.Err?
  {
    ReadThrough(c, [], payload, tail, ending);
    assert [] + payload == payload;
  }

  /** The frames read from a stream until the first error. */
  function ReadAll(c: Channel, data: seq<Byte>, ending: Ending): seq<seq<Byte>>
    decreases |data|
  {
    var r := Read(c, data, ending, []);
    if r.result.Err? || |r.rest| >= |data| then [] else [r.result.value] + ReadAll(c, r.rest, ending)
  }

  /** Writing a list and reading until the end gives the list back, one frame per read. */
  lemma {:induction false} StreamRoundTrip(c: Channel, payloads: seq<seq<Byte>>, ending: Ending)
    requires forall i | 0 <= i < |payloads| :: LineFree(payloads[i]) && Fits(c, payloads[i])
    ensures ReadAll(c, Encode(payloads), ending) == payloads
    decreases |payloads|
  {
    if payloads != [] {
      FrameRoundTrip(c, payloads[0], Encode(payloads[1..]), ending);
      StreamRoundTrip(c, payloads[1..], ending);
    }
  }

  lemma {:induction false} NoNewlineNoFrame(c: Channel, data: seq<Byte>, ending: Ending, buffer: seq<Byte>)
    requires LineFree(data)
    ensures Read(c, data, ending, buffer).result.Err?
    decreases |data|
  {
    if data != [] {
      NoNewlineNoFrame(c, data[1..], ending, buffer + [data[0]]);
    }
  }

  /** A frame that broke off before its newline is never read: the frames before it come back, and no more. */
  lemma {:induction false} TornFrameIsNotRead(c: Channel, payloads: seq<seq<Byte>>, torn: seq<Byte>, ending: Ending)
    requires forall i | 0 <= i < |payloads| :: LineFree(payloads[i]) && Fits(c, payloads[i])
    requires LineFree(torn)
    ensures ReadAll(c, Encode(payloads) + torn, ending) == payloads
    decreases |payloads|
  {
    if payloads == [] {
      assert Encode(payloads) + torn == torn;
      NoNewlineNoFrame(c, torn, ending, []);
    } else {
      var rest := Encode(payloads[1..]) + torn;
      assert Encode(payloads) + torn == payloads[0] + [NEWLINE] + rest;
      FrameRoundTrip(c, payloads[0], rest, ending);
      TornFrameIsNotRead(c, payloads[1..], torn, ending);
    }
  }

  /**
   * Whatever the stream holds, a read takes a prefix of it with no newline before its last byte, of
   * at most one byte past the limit, and a frame it returns fits and has no newline.
   */
  lemma {:induction false} ReadTakesOneLine(c: Channel, data: seq<Byte>, ending: Ending, buffer: seq<Byte>)
    requires LineFree(buffer) && |buffer| <= Limit(c)
    ensures var r := Read(c, data, ending, buffer);
      && |r.rest| <= |data| && data[|data| - |r.rest|..] == r.rest
      && (forall i | 0 <= i < |data| - |r.rest| - 1 :: data[i] != NEWLINE)
      && |buffer| + (|data| - |r.rest|) <= Limit(c) + 1
      && (r.result.Ok? ==> LineFree(r.result.value) && Fits(c, r.result.value) && buffer <= r.result.value)
    decreases |data|
  {
    if data != [] && data[0] != NEWLINE && |buffer| < Limit(c) {
      ReadTakesOneLine(c, data[1..], ending, buffer + [data[0]]);
    }
  }
}

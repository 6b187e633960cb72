/**
 The reading and writing loops of src/frame.rs over a transport that returns short reads, is
 interrupted, fails, and may break in the middle of a write.
 */
module FrameIO {
  import opened Wrappers
  import opened Utf8
  import opened Frame

  /** A failed write call: how much of its buffer the peer still got, and the error. */
  datatype WriteFault = WriteFault(taken: nat, fault: Fault)

  /** The sending half as a value: the bytes that reached the peer, and how many calls were made. */
  datatype Sent = Sent(bytes: seq<byte>, calls: nat)

  /** The outcome of every `write_all` and `flush` call, by its position among them. */
  type Faults = nat -> Option<WriteFault>

  function Written(faults: Faults, sent: Sent, bytes: seq<byte>): Sent {
    match faults(sent.calls)
    case None => Sent(sent.bytes + bytes, sent.calls + 1)
    case Some(broken) =>
      Sent(sent.bytes + bytes[..if broken.taken < |bytes| then broken.taken else |bytes|], sent.calls + 1)
  }

  datatype Write = Write(sent: Sent, result: Result<(), FrameError>)

  /** `write_all` of the bytes, then whatever `then` does when that succeeded. */
  function WriteStep(faults: Faults, sent: Sent, bytes: seq<byte>): Write {
    var sent' := Written(faults, sent, bytes);
    match faults(sent.calls)
    case None => Write(sent', Ok(()))
    case Some(broken) => Write(sent', Err(Io(broken.fault)))
  }

  /** What one `write_frame` call does to the sending half, and what it reports. */
  function WriteOf(faults: Faults, sent: Sent, body: Text, maximum: nat): (w: Write)
    ensures sent.bytes <= w.sent.bytes
    ensures w.result.Ok? ==> Fits(body, maximum) && w.sent.bytes == sent.bytes + Encode(body)
    ensures !Fits(body, maximum) ==> w.sent == sent && w.result.Err? && w.result.error.TooLarge?
  {
    if |body| > MAXIMUM_DECLARED then
      Write(sent, Err(TooLarge(MAXIMUM_DECLARED, maximum)))
    else if |body| > maximum then
      Write(sent, Err(TooLarge(|body|, maximum)))
    else
      var prefix := WriteStep(faults, sent, BigEndian(|body|));
      if prefix.result.Err? then prefix else
      var whole := WriteStep(faults, prefix.sent, body);
      if whole.result.Err? then whole else
      assert sent.bytes + BigEndian(|body|) + body == sent.bytes + Encode(body);
      WriteStep(faults, whole.sent, [])
  }

  /** None of the write calls in these positions fails. */
  ghost predicate Unbroken(faults: Faults, from: nat, until: nat) {
    forall i :: from <= i < until ==> faults(i) == None
  }

  /**
   Writing a frame succeeds exactly when the body fits and none of its three calls fails. If one does, the
   later ones are not made, the error is its own, and the peer has got the beginning of the frame.
   */
  lemma WriteExactly(faults: Faults, sent: Sent, body: Text, maximum: nat)
    ensures var w := WriteOf(faults, sent, body, maximum);
            && (w.result.Ok? <==> Fits(body, maximum) && Unbroken(faults, sent.calls, sent.calls + 3))
            && (w.result.Ok? ==> w.sent.calls == sent.calls + 3)
            && (Fits(body, maximum) && w.result.Err? ==>
                  && sent.calls < w.sent.calls <= sent.calls + 3
                  && Unbroken(faults, sent.calls, w.sent.calls - 1)
                  && faults(w.sent.calls - 1).Some?
                  && w.result.error == Io(faults(w.sent.calls - 1).value.fault)
                  && sent.bytes <= w.sent.bytes <= sent.bytes + Encode(body))
  {
    var w := WriteOf(faults, sent, body, maximum);
    if Fits(body, maximum) && w.result.Err? {
      assert sent.bytes + BigEndian(|body|) + body == sent.bytes + Encode(body);
    }
  }

  datatype ReadResult = ReadCount(count: nat) | ReadInterrupted | ReadFailed(fault: Fault)

  /** Copies as much of `bytes` as the empty part of the buffer has room for. */
  method CopyInto(bytes: seq<byte>, buffer: array<byte>, start: nat) returns (count: nat)
    requires start <= buffer.Length
    modifies buffer
    ensures count == if |bytes| < buffer.Length - start then |bytes| else buffer.Length - start
    ensures buffer[..start + count] == old(buffer[..start]) + bytes[..count]
  {
    var room := buffer.Length - start;
    count := if |bytes| < room then |bytes| else room;
    forall i | 0 <= i < count {
      buffer[start + i] := bytes[i];
    }
  }

  /** A read that takes the front of the first chunk takes the same signals off the front. */
  lemma TakenFrom(before: seq<ReadEvent>, after: seq<ReadEvent>, taken: seq<byte>)
    requires before != [] && before[0].Data? && taken <= before[0].bytes
    requires if taken == before[0].bytes then after == before[1..]
             else after == [Data(before[0].bytes[|taken|..])] + before[1..]
    ensures Flatten(before) == Octets(taken) + Flatten(after)
  {
    if taken != before[0].bytes {
      var later := before[0].bytes[|taken|..];
      assert before[0].bytes == taken + later;
      OctetsConcat(taken, later);
      assert after[1..] == before[1..];
      var rest := Flatten(before[1..]);
      assert Octets(taken) + Octets(later) + rest == Octets(taken) + (Octets(later) + rest);
    }
  }

  /** A read moves signals from what is still to come to what has been filled. */
  lemma ReadStep(done: seq<byte>, before: seq<ReadEvent>, after: seq<ReadEvent>, taken: seq<byte>, n: nat)
    requires before != [] && before[0].Data? && taken <= before[0].bytes && |taken| <= n
    requires if taken == before[0].bytes then after == before[1..]
             else after == [Data(before[0].bytes[|taken|..])] + before[1..]
    ensures Prepend(done, Pull(Flatten(before), n))
         == Prepend(done + taken, Pull(Flatten(after), n - |taken|))
  {
    TakenFrom(before, after, taken);
    PullOctets(taken, Flatten(after), n);
    PrependTwice(done, taken, Pull(Flatten(after), n - |taken|));
  }

  class Stream {
    var script: seq<ReadEvent>
    var written: seq<byte>
    var calls: nat
    const faults: Faults

    constructor (script: seq<ReadEvent>, faults: Faults)
      ensures this.script == script && this.faults == faults
      ensures Sending() == Sent([], 0)
    {
      this.script, this.faults, this.written, this.calls := script, faults, [], 0;
    }

    ghost function Remaining(): seq<Signal>
      reads this`script
    {
      Flatten(script)
    }

    ghost function Sending(): Sent
      reads this`written, this`calls
    {
      Sent(written, calls)
    }

    /** What a reader that has filled `filled` bytes of the buffer will make of the whole of it. */
    ghost function Outcome(buffer: array<byte>, filled: nat): Pulled
      requires filled <= buffer.Length
      reads this`script, buffer
    {
      Prepend(buffer[..filled], Pull(Remaining(), buffer.Length - filled))
    }

    /** `Read::read` into the part of the buffer that is still empty. */
    method Read(buffer: array<byte>, start: nat) returns (r: ReadResult)
      requires start < buffer.Length
      modifies this`script, buffer
      ensures match r
              case ReadCount(count) =>
                if count == 0 then
                  old(Outcome(buffer, start)) == RanOut(start) && Remaining() == []
                else
                  start + count <= buffer.Length
                  && Outcome(buffer, start + count) == old(Outcome(buffer, start))
              case ReadInterrupted =>
                Outcome(buffer, start) == old(Outcome(buffer, start)) && |script| < |old(script)|
              case ReadFailed(fault) =>
                old(Outcome(buffer, start)) == Faulted(fault, Remaining())
    {
      if script == [] {
        return ReadCount(0);
      }
      match script[0] {
        case Interrupted =>
          script := script[1..];
          assert [] + Flatten(script) == Flatten(script);
          r := ReadInterrupted;
        case Failed(fault) =>
          script := script[1..];
          r := ReadFailed(fault);
        case Data(bytes) =>
          var count := Take(buffer, start);
          r := ReadCount(count);
      }
    }

    /** A read that finds data: as much of the first chunk as the buffer has room for. */
    method Take(buffer: array<byte>, start: nat) returns (count: nat)
      requires start < buffer.Length && script != [] && script[0].Data?
      modifies this`script, buffer
      ensures 0 < count && start + count <= buffer.Length
      ensures Outcome(buffer, start + count) == old(Outcome(buffer, start))
    {
      var bytes := script[0].bytes;
      count := CopyInto(bytes, buffer, start);
      script := if count == |bytes| then script[1..] else [Data(bytes[count..])] + script[1..];
      ReadStep(old(buffer[..start]), old(script), script, bytes[..count], buffer.Length - start);
    }

    /** `Write::write_all`. */
    method WriteAll(bytes: seq<byte>) returns (r: Result<(), FrameError>)
      modifies this`written, this`calls
      ensures Write(Sending(), r) == WriteStep(faults, old(Sending()), bytes)
    {
      match faults(calls) {
        case None =>
          written := written + bytes;
          r := Ok(());
        case Some(broken) =>
          written := written + bytes[..if broken.taken < |bytes| then broken.taken else |bytes|];
          r := Err(Io(broken.fault));
      }
      calls := calls + 1;
    }

    /** `Write::flush`. */
    method Flush() returns (r: Result<(), FrameError>)
      modifies this`calls
      ensures Write(Sending(), r) == WriteStep(faults, old(Sending()), [])
    {
      match faults(calls) {
        case None => r := Ok(());
        case Some(broken) => r := Err(Io(broken.fault));
      }
      calls := calls + 1;
    }
  }

  datatype Read0 = ReadFilled | ReadClosed

  lemma FullOutcome(bytes: seq<byte>, rest: seq<Signal>)
    ensures Prepend(bytes, Pull(rest, 0)) == Filled(bytes, rest)
  {
  }

  lemma EmptyPrepend(p: Pulled)
    ensures Prepend([], p) == p
  {
  }

  /** Reads until the buffer is full. Running out is clean before the first byte, and not after it. */
  method ReadExactOrClosed(reader: Stream, buffer: array<byte>) returns (r: Result<Read0, FrameError>)
    modifies reader`script, buffer
    ensures match Pull(old(reader.Remaining()), buffer.Length)
            case Filled(bytes, rest) =>
              r == Ok(ReadFilled) && buffer[..] == bytes && reader.Remaining() == rest
            case RanOut(got) =>
              r == (if got == 0 then Ok(ReadClosed) else Err(Truncated)) && reader.Remaining() == []
            case Faulted(fault, rest) =>
              r == Err(Io(fault)) && reader.Remaining() == rest
  {
    var filled := 0;
    assert buffer[..0] == [];
    EmptyPrepend(Pull(reader.Remaining(), buffer.Length));
    while filled < buffer.Length
      invariant filled <= buffer.Length
      invariant reader.Outcome(buffer, filled) == old(Pull(reader.Remaining(), buffer.Length))
      decreases buffer.Length - filled, |reader.script|
    {
      var got := reader.Read(buffer, filled);
      match got {
        case ReadCount(count) =>
          if count == 0 {
            return if filled == 0 then Ok(ReadClosed) else Err(Truncated);
          }
          filled := filled + count;
        case ReadInterrupted =>
        case ReadFailed(fault) =>
          return Err(Io(fault));
      }
    }
    FullOutcome(buffer[..], reader.Remaining());
    assert buffer[..filled] == buffer[..];
    r := Ok(ReadFilled);
  }

  /** `Read::read_exact`, the standard library's loop of the same kind. */
  method ReadExact(reader: Stream, buffer: array<byte>) returns (r: Result<(), Fault>)
    modifies reader`script, buffer
    ensures match Pull(old(reader.Remaining()), buffer.Length)
            case Filled(bytes, rest) => r == Ok(()) && buffer[..] == bytes && reader.Remaining() == rest
            case RanOut(_) => r == Err(UnexpectedEof) && reader.Remaining() == []
            case Faulted(fault, rest) => r == Err(fault) && reader.Remaining() == rest
  {
    var filled := 0;
    assert buffer[..0] == [];
    EmptyPrepend(Pull(reader.Remaining(), buffer.Length));
    while filled < buffer.Length
      invariant filled <= buffer.Length
      invariant reader.Outcome(buffer, filled) == old(Pull(reader.Remaining(), buffer.Length))
      decreases buffer.Length - filled, |reader.script|
    {
      var got := reader.Read(buffer, filled);
      match got {
        case ReadCount(count) =>
          if count == 0 {
            return Err(UnexpectedEof);
          }
          filled := filled + count;
        case ReadInterrupted =>
        case ReadFailed(fault) =>
          return Err(fault);
      }
    }
    FullOutcome(buffer[..], reader.Remaining());
    assert buffer[..filled] == buffer[..];
    r := Ok(());
  }

  /**
   Prefix, bound, body. `sized` is the size of the buffer that was made for the body: none at all
   for a body that the bound rules out, so no peer can have more made than the bound.
   */
  method ReadFrame(reader: Stream, maximum: nat) returns (r: Result<Text, FrameError>, ghost sized: nat)
    modifies reader`script
    ensures Decoded(r, reader.Remaining()) == FrameAt(old(reader.Remaining()), maximum)
    ensures sized <= maximum
    ensures r.Ok? ==> sized == |r.value|
    ensures r.Err? && r.error.TooLarge? ==> sized == 0
  {
    sized := 0;
    var prefix := new byte[PREFIX_BYTES];
    var opening := ReadExactOrClosed(reader, prefix);
    match opening {
      case Err(error) => return Err(error), sized;
      case Ok(ReadClosed) => return Err(Closed), sized;
      case Ok(ReadFilled) =>
    }
    var declared := FromBigEndian(prefix[..]);
    if declared > maximum {
      return Err(TooLarge(declared, maximum)), sized;
    }
    var body := new byte[declared];
    sized := body.Length;
    var filled := ReadExact(reader, body);
    match filled {
      case Err(fault) => return Err(if fault.UnexpectedEof? then Truncated else Io(fault)), sized;
      case Ok(_) =>
    }
    if IsUtf8(body[..]) {
      r := Ok(body[..]);
    } else {
      r := Err(NotUtf8);
    }
  }

  /** Prefix, body, flush. Nothing is sent of a body that the peer would have to turn away. */
  method WriteFrame(writer: Stream, body: Text, maximum: nat) returns (r: Result<(), FrameError>)
    modifies writer`written, writer`calls
    ensures Write(writer.Sending(), r) == WriteOf(writer.faults, old(writer.Sending()), body, maximum)
  {
    if |body| > MAXIMUM_DECLARED {
      return Err(TooLarge(MAXIMUM_DECLARED, maximum));
    }
    if |body| > maximum {
      return Err(TooLarge(|body|, maximum));
    }
    r := writer.WriteAll(BigEndian(|body|));
    if r.Err? {
      return;
    }
    r := writer.WriteAll(body);
    if r.Err? {
      return;
    }
    r := writer.Flush();
  }
}

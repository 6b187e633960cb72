/**
 What a reader can and cannot tell of a schedule of reads: the bytes, and after how many of them each
 hard error comes; not how the bytes were cut into reads, nor where a read was interrupted.
 */
module Chunking {
  import opened Utf8
  import opened Frame

  lemma {:induction false} FlattenConcat(a: seq<ReadEvent>, b: seq<ReadEvent>)
    ensures Flatten(a + b) == Flatten(a) + Flatten(b)
  {
    if a == [] {
      assert a + b == b;
    } else {
      assert (a + b)[1..] == a[1..] + b;
      FlattenConcat(a[1..], b);
    }
  }

  lemma FlattenOne(event: ReadEvent)
    requires event.Data?
    ensures Flatten([event]) == Octets(event.bytes)
  {
  }

  // ---------------------------------------------------------------------------------------------
  // Schedules by what they deliver

  function DataOf(event: ReadEvent): seq<byte> {
    match event
    case Data(bytes) => bytes
    case Interrupted => []
    case Failed(_) => []
  }

  /** The bytes that a schedule delivers. */
  function BytesOf(script: seq<ReadEvent>): seq<byte> {
    if script == [] then [] else DataOf(script[0]) + BytesOf(script[1..])
  }

  /** A hard error, and how many bytes had been delivered before it. */
  datatype FaultAt = FaultAt(offset: nat, fault: Fault)

  /** The hard errors of a schedule that is read from this offset on. */
  function FaultsOf(script: seq<ReadEvent>, offset: nat): seq<FaultAt>
    decreases |script|
  {
    if script == [] then []
    else
      match script[0]
      case Data(bytes) => FaultsOf(script[1..], offset + |bytes|)
      case Interrupted => FaultsOf(script[1..], offset)
      case Failed(fault) => [FaultAt(offset, fault)] + FaultsOf(script[1..], offset)
  }

  function SignalBytes(signals: seq<Signal>): seq<byte> {
    if signals == [] then []
    else
      match signals[0]
      case Octet(b) => [b] + SignalBytes(signals[1..])
      case Break(_) => SignalBytes(signals[1..])
  }

  function SignalFaults(signals: seq<Signal>, offset: nat): (faults: seq<FaultAt>)
    ensures forall i :: 0 <= i < |faults| ==> faults[i].offset >= offset
    decreases |signals|
  {
    if signals == [] then []
    else
      match signals[0]
      case Octet(_) => SignalFaults(signals[1..], offset + 1)
      case Break(fault) => [FaultAt(offset, fault)] + SignalFaults(signals[1..], offset)
  }

  lemma {:induction false} OctetsThen(bytes: seq<byte>, signals: seq<Signal>, offset: nat)
    ensures SignalBytes(Octets(bytes) + signals) == bytes + SignalBytes(signals)
    ensures SignalFaults(Octets(bytes) + signals, offset) == SignalFaults(signals, offset + |bytes|)
    decreases |bytes|
  {
    if bytes == [] {
      assert Octets(bytes) + signals == signals;
    } else {
      assert (Octets(bytes) + signals)[1..] == Octets(bytes[1..]) + signals;
      OctetsThen(bytes[1..], signals, offset + 1);
    }
  }

  lemma {:induction false} FlattenDelivers(script: seq<ReadEvent>, offset: nat)
    ensures SignalBytes(Flatten(script)) == BytesOf(script)
    ensures SignalFaults(Flatten(script), offset) == FaultsOf(script, offset)
    decreases |script|
  {
    if script == [] {
    } else {
      var later := Flatten(script[1..]);
      match script[0]
      case Data(bytes) =>
        FlattenDelivers(script[1..], offset + |bytes|);
        OctetsThen(bytes, later, offset);
      case Interrupted =>
        FlattenDelivers(script[1..], offset);
        assert [] + later == later;
      case Failed(fault) =>
        FlattenDelivers(script[1..], offset);
        assert ([Break(fault)] + later)[1..] == later;
    }
  }

  lemma Nothing(signals: seq<Signal>, offset: nat)
    ensures SignalBytes(signals) == [] && SignalFaults(signals, offset) == [] <==> signals == []
  {
  }

  /** A hard error comes first exactly when one comes at the very offset that was reached. */
  lemma FirstTells(signals: seq<Signal>, offset: nat)
    requires signals != []
    ensures var bytes, faults := SignalBytes(signals), SignalFaults(signals, offset);
            match signals[0]
            case Break(fault) =>
              && faults != [] && faults[0] == FaultAt(offset, fault)
              && bytes == SignalBytes(signals[1..]) && faults[1..] == SignalFaults(signals[1..], offset)
            case Octet(b) =>
              && (faults != [] ==> faults[0].offset > offset)
              && bytes != [] && bytes[0] == b && bytes[1..] == SignalBytes(signals[1..])
              && faults == SignalFaults(signals[1..], offset + 1)
  {
  }

  lemma {:induction false} SignalsAreDetermined(a: seq<Signal>, b: seq<Signal>, offset: nat)
    requires SignalBytes(a) == SignalBytes(b) && SignalFaults(a, offset) == SignalFaults(b, offset)
    ensures a == b
    decreases |a|
  {
    if a == [] || b == [] {
      Nothing(a, offset);
      Nothing(b, offset);
    } else {
      FirstTells(a, offset);
      FirstTells(b, offset);
      assert a[0] == b[0];
      SignalsAreDetermined(a[1..], b[1..], if a[0].Octet? then offset + 1 else offset);
      assert a == [a[0]] + a[1..] && b == [b[0]] + b[1..];
    }
  }

  /**
   Two schedules have the same signals exactly when they deliver the same bytes, and the same hard
   errors at the same offsets in them.
   */
  lemma SameSignalsExactly(a: seq<ReadEvent>, b: seq<ReadEvent>)
    ensures Flatten(a) == Flatten(b) <==> BytesOf(a) == BytesOf(b) && FaultsOf(a, 0) == FaultsOf(b, 0)
  {
    FlattenDelivers(a, 0);
    FlattenDelivers(b, 0);
    if BytesOf(a) == BytesOf(b) && FaultsOf(a, 0) == FaultsOf(b, 0) {
      SignalsAreDetermined(Flatten(a), Flatten(b), 0);
    }
  }

  // ---------------------------------------------------------------------------------------------
  // Elementary changes

  /** One elementary change to a schedule that no reader may notice. */
  datatype Rechunking =
    | SplitRead(before: seq<ReadEvent>, left: Chunk, right: Chunk, after: seq<ReadEvent>)
    | Interrupt(before: seq<ReadEvent>, after: seq<ReadEvent>)

  function Original(change: Rechunking): seq<ReadEvent> {
    match change
    case SplitRead(before, left, right, after) =>
      assert left + right != [];
      before + [Data(left + right)] + after
    case Interrupt(before, after) => before + after
  }

  function Changed(change: Rechunking): seq<ReadEvent> {
    match change
    case SplitRead(before, left, right, after) => before + [Data(left), Data(right)] + after
    case Interrupt(before, after) => before + [Interrupted] + after
  }

  /** Splitting a read, or interrupting one, anywhere in a schedule leaves its signals alone. */
  lemma RechunkingKeepsSignals(change: Rechunking)
    ensures Flatten(Changed(change)) == Flatten(Original(change))
  {
    match change
    case SplitRead(before, left, right, after) =>
      assert left + right != [];
      var whole, halves := [Data(left + right)], [Data(left), Data(right)];
      FlattenConcat(before + whole, after);
      FlattenConcat(before, whole);
      FlattenConcat(before + halves, after);
      FlattenConcat(before, halves);
      OctetsConcat(left, right);
      FlattenOne(Data(left + right));
      FlattenOne(Data(left));
      FlattenOne(Data(right));
      FlattenConcat([Data(left)], [Data(right)]);
      assert halves == [Data(left)] + [Data(right)];
    case Interrupt(before, after) =>
      FlattenConcat(before, after);
      FlattenConcat(before + [Interrupted], after);
      FlattenConcat(before, [Interrupted]);
  }
}

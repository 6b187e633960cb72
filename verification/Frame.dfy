/**
 Message framing (src/frame.rs): a 4-byte big-endian byte count, then that many bytes of UTF-8.

 The transport is a finite schedule of read results. `Flatten` forgets how that schedule was cut
 into reads and where reads were interrupted; `FrameAt` and `ReadAll` say what the remaining
 signals decode to. FrameIO.dfy proves the reading loops against them, so nothing stated here
 depends on chunking.
 */
module Frame {
  import opened Wrappers
  import opened Utf8

  const PREFIX_BYTES := 4
  const MAXIMUM_DECLARED := 0xFFFF_FFFF

  /** A hard transport error, by the only distinction the code draws between kinds. */
  datatype Fault = UnexpectedEof | OtherFault(kind: nat)

  type Chunk = c: seq<byte> | c != [] witness [0]

  /** One result of `Read::read`. An exhausted schedule reads as the end of the stream. */
  datatype ReadEvent = Data(bytes: Chunk) | Interrupted | Failed(fault: Fault)

  datatype Signal = Octet(value: byte) | Break(fault: Fault)

  datatype FrameError =
    | TooLarge(declared: nat, maximum: nat)
    | NotUtf8
    | Closed
    | Truncated
    | Io(fault: Fault)

  function Octets(bytes: seq<byte>): (signals: seq<Signal>)
    ensures |signals| == |bytes|
  {
    seq(|bytes|, i requires 0 <= i < |bytes| => Octet(bytes[i]))
  }

  function Flatten(script: seq<ReadEvent>): seq<Signal> {
    if script == [] then
      []
    else
      (match script[0]
       case Data(bytes) => Octets(bytes)
       case Interrupted => []
       case Failed(fault) => [Break(fault)]) + Flatten(script[1..])
  }

  // ---------------------------------------------------------------------------------------------
  // The length prefix

  function BigEndian(n: nat): (prefix: seq<byte>)
    requires n <= MAXIMUM_DECLARED
    ensures |prefix| == PREFIX_BYTES
  {
    var high := n / 0x100 / 0x100;
    [high / 0x100, high % 0x100, n / 0x100 % 0x100, n % 0x100]
  }

  function FromBigEndian(prefix: seq<byte>): (n: nat)
    requires |prefix| == PREFIX_BYTES
    ensures n <= MAXIMUM_DECLARED
  {
    var high: int := prefix[0] as int * 0x100 + prefix[1];
    (high * 0x100 + prefix[2]) * 0x100 + prefix[3]
  }

  lemma PrefixRoundTrip(n: nat)
    requires n <= MAXIMUM_DECLARED
    ensures FromBigEndian(BigEndian(n)) == n
  {
  }

  lemma PrefixIsCanonical(prefix: seq<byte>)
    requires |prefix| == PREFIX_BYTES
    ensures BigEndian(FromBigEndian(prefix)) == prefix
  {
    var high: int := prefix[0] as int * 0x100 + prefix[1];
    var n := FromBigEndian(prefix);
    assert n / 0x100 == high * 0x100 + prefix[2];
    assert n / 0x100 / 0x100 == high;
  }

  /** The first byte counts most: lengths are ordered as their prefixes are, byte by byte. */
  lemma PrefixOrder(p: seq<byte>, q: seq<byte>, k: nat)
    requires |p| == |q| == PREFIX_BYTES && k < PREFIX_BYTES
    requires p[..k] == q[..k] && p[k] < q[k]
    ensures FromBigEndian(p) < FromBigEndian(q)
  {
    assert forall i :: 0 <= i < k ==> p[..k][i] == p[i] && q[..k][i] == q[i];
  }

  // ---------------------------------------------------------------------------------------------
  // What the remaining signals yield to a reader that wants `n` bytes

  datatype Pulled =
    | Filled(bytes: seq<byte>, rest: seq<Signal>)
    | RanOut(got: nat)
    | Faulted(fault: Fault, rest: seq<Signal>)

  function Prepend(bytes: seq<byte>, p: Pulled): Pulled {
    match p
    case Filled(more, rest) => Filled(bytes + more, rest)
    case RanOut(got) => RanOut(|bytes| + got)
    case Faulted(_, _) => p
  }

  function Pull(signals: seq<Signal>, n: nat): (p: Pulled)
    ensures p.Filled? ==> |p.bytes| == n && signals == Octets(p.bytes) + p.rest
    ensures p.RanOut? ==> p.got == |signals| < n
    ensures p.Faulted? ==> |p.rest| < |signals|
  {
    if n == 0 then
      Filled([], signals)
    else if signals == [] then
      RanOut(0)
    else
      match signals[0]
      case Break(fault) => Faulted(fault, signals[1..])
      case Octet(b) => Prepend([b], Pull(signals[1..], n - 1))
  }

  datatype Decoded = Decoded(result: Result<Text, FrameError>, rest: seq<Signal>)

  function BodyAt(signals: seq<Signal>, declared: nat): (d: Decoded)
    ensures |d.rest| <= |signals|
    ensures d.result.Ok? ==> |d.result.value| == declared && declared + |d.rest| == |signals|
    ensures d.result.Err? ==> !d.result.error.TooLarge? && !d.result.error.Closed?
  {
    match Pull(signals, declared)
    case RanOut(_) => Decoded(Err(Truncated), [])
    case Faulted(fault, rest) =>
      Decoded(Err(if fault.UnexpectedEof? then Truncated else Io(fault)), rest)
    case Filled(body, rest) =>
      Decoded(if IsUtf8(body) then Ok(body) else Err(NotUtf8), rest)
  }

  /** One frame, from the signals that remain on the transport. */
  function FrameAt(signals: seq<Signal>, maximum: nat): (d: Decoded)
    ensures |d.rest| <= |signals|
    ensures d.result.Ok? ==> PREFIX_BYTES + |d.result.value| + |d.rest| == |signals|
    ensures d.result.Err? && d.result.error.TooLarge? ==> PREFIX_BYTES + |d.rest| == |signals|
  {
    match Pull(signals, PREFIX_BYTES)
    case RanOut(got) => Decoded(Err(if got == 0 then Closed else Truncated), [])
    case Faulted(fault, rest) => Decoded(Err(Io(fault)), rest)
    case Filled(prefix, rest) =>
      var declared := FromBigEndian(prefix);
      if declared > maximum then
        Decoded(Err(TooLarge(declared, maximum)), rest)
      else
        BodyAt(rest, declared)
  }

  /** Every frame up to the first one that cannot be read, and why it cannot. */
  datatype Conversation = Conversation(bodies: seq<Text>, ending: FrameError)

  function First(body: Text, later: Conversation): Conversation {
    Conversation([body] + later.bodies, later.ending)
  }

  function ReadAll(signals: seq<Signal>, maximum: nat): (c: Conversation)
    decreases |signals|
  {
    var d := FrameAt(signals, maximum);
    match d.result
    case Err(error) => Conversation([], error)
    case Ok(body) =>
      First(body, ReadAll(d.rest, maximum))
  }

  // ---------------------------------------------------------------------------------------------
  // What a writer puts on the wire

  predicate Fits(body: Text, maximum: nat) {
    |body| <= maximum && |body| <= MAXIMUM_DECLARED
  }

  function Encode(body: Text): (bytes: seq<byte>)
    requires |body| <= MAXIMUM_DECLARED
    ensures |bytes| == PREFIX_BYTES + |body|
  {
    BigEndian(|body|) + body
  }

  predicate AllFit(bodies: seq<Text>, maximum: nat) {
    forall i :: 0 <= i < |bodies| ==> Fits(bodies[i], maximum)
  }

  function EncodeAll(bodies: seq<Text>): seq<byte>
    requires AllFit(bodies, MAXIMUM_DECLARED)
  {
    if bodies == [] then [] else Encode(bodies[0]) + EncodeAll(bodies[1..])
  }

  // ---------------------------------------------------------------------------------------------
  // Pull, against concatenation

  lemma OctetsConcat(a: seq<byte>, b: seq<byte>)
    ensures Octets(a + b) == Octets(a) + Octets(b)
  {
  }

  lemma PrependTwice(a: seq<byte>, b: seq<byte>, p: Pulled)
    ensures Prepend(a, Prepend(b, p)) == Prepend(a + b, p)
  {
  }

  lemma {:induction false} PullOctets(bytes: seq<byte>, signals: seq<Signal>, n: nat)
    requires |bytes| <= n
    ensures Pull(Octets(bytes) + signals, n) == Prepend(bytes, Pull(signals, n - |bytes|))
  {
    if bytes == [] {
      assert Octets(bytes) + signals == signals;
      assert forall p: Pulled :: p.Filled? ==> [] + p.bytes == p.bytes;
    } else {
      var all := Octets(bytes) + signals;
      assert all[1..] == Octets(bytes[1..]) + signals;
      PullOctets(bytes[1..], signals, n - 1);
      PrependTwice([bytes[0]], bytes[1..], Pull(signals, n - |bytes|));
      assert [bytes[0]] + bytes[1..] == bytes;
    }
  }

  /** A body of `n` bytes cut short after fewer of them. */
  lemma PullShort(bytes: seq<byte>, n: nat)
    requires |bytes| < n
    ensures Pull(Octets(bytes), n) == RanOut(|bytes|)
  {
    PullOctets(bytes, [], n);
    assert Octets(bytes) + [] == Octets(bytes);
  }

  // ---------------------------------------------------------------------------------------------
  // Round trip

  lemma EncodedFrameReads(body: Text, signals: seq<Signal>, maximum: nat)
    requires Fits(body, maximum)
    ensures FrameAt(Octets(Encode(body)) + signals, maximum) == Decoded(Ok(body), signals)
  {
    var prefix := BigEndian(|body|);
    var after := Octets(body) + signals;
    OctetsConcat(prefix, body);
    assert Octets(Encode(body)) + signals == Octets(prefix) + after;
    PullOctets(prefix, after, PREFIX_BYTES);
    assert Pull(after, 0) == Filled([], after);
    assert prefix + [] == prefix;
    PrefixRoundTrip(|body|);
    PullOctets(body, signals, |body|);
    assert body + [] == body;
  }

  // ---------------------------------------------------------------------------------------------
  // Every way a frame can be read

  /** These bytes stop inside the body that their prefix declares, and that is no larger than the maximum. */
  predicate InBody(bytes: seq<byte>, maximum: nat) {
    && |bytes| >= PREFIX_BYTES
    && var declared := FromBigEndian(bytes[..PREFIX_BYTES]);
       declared <= maximum && |bytes| < PREFIX_BYTES + declared
  }

  /** These bytes stop inside a frame: in its prefix, or in its body. */
  predicate InFrame(bytes: seq<byte>, maximum: nat) {
    |bytes| < PREFIX_BYTES || InBody(bytes, maximum)
  }

  /** The signals begin with these bytes, a hard error, and then the rest. */
  predicate BrokenAfter(signals: seq<Signal>, bytes: seq<byte>, fault: Fault, rest: seq<Signal>) {
    signals == Octets(bytes) + ([Break(fault)] + rest)
  }

  /** What a frame is read as, said of the signals alone and without reading them. */
  ghost predicate ReadsAs(signals: seq<Signal>, maximum: nat, d: Decoded) {
    match d.result
    case Ok(body) => Fits(body, maximum) && signals == Octets(Encode(body)) + d.rest
    case Err(TooLarge(declared, limit)) =>
      && limit == maximum && maximum < declared <= MAXIMUM_DECLARED
      && signals == Octets(BigEndian(declared)) + d.rest
    case Err(NotUtf8) =>
      exists body: seq<byte> :: |body| <= maximum && |body| <= MAXIMUM_DECLARED && !IsUtf8(body)
                                && signals == Octets(BigEndian(|body|) + body) + d.rest
    case Err(Closed) => signals == [] && d.rest == []
    case Err(Truncated) =>
      exists bytes ::
        || (signals == Octets(bytes) && d.rest == [] && bytes != [] && InFrame(bytes, maximum))
        || (BrokenAfter(signals, bytes, UnexpectedEof, d.rest) && InBody(bytes, maximum))
    case Err(Io(fault)) =>
      exists bytes :: BrokenAfter(signals, bytes, fault, d.rest)
                      && (|bytes| < PREFIX_BYTES || (InBody(bytes, maximum) && !fault.UnexpectedEof?))
  }

  lemma PrefixReads(prefix: seq<byte>, signals: seq<Signal>)
    requires |prefix| == PREFIX_BYTES
    ensures Pull(Octets(prefix) + signals, PREFIX_BYTES) == Filled(prefix, signals)
  {
    PullOctets(prefix, signals, PREFIX_BYTES);
    assert Pull(signals, 0) == Filled([], signals);
    assert prefix + [] == prefix;
  }

  /** A length above the maximum is refused before anything that follows it is read. */
  lemma OverlongReads(declared: nat, signals: seq<Signal>, maximum: nat)
    requires maximum < declared <= MAXIMUM_DECLARED
    ensures FrameAt(Octets(BigEndian(declared)) + signals, maximum) ==
            Decoded(Err(TooLarge(declared, maximum)), signals)
  {
    PrefixReads(BigEndian(declared), signals);
    PrefixRoundTrip(declared);
  }

  lemma BodyReads(prefix: seq<byte>, part: seq<byte>, signals: seq<Signal>, maximum: nat)
    requires |prefix| == PREFIX_BYTES && |part| <= FromBigEndian(prefix) <= maximum
    ensures FrameAt(Octets(prefix + part) + signals, maximum) ==
            BodyAt(Octets(part) + signals, FromBigEndian(prefix))
    ensures Pull(Octets(part) + signals, FromBigEndian(prefix)) ==
            Prepend(part, Pull(signals, FromBigEndian(prefix) - |part|))
  {
    OctetsConcat(prefix, part);
    assert Octets(prefix + part) + signals == Octets(prefix) + (Octets(part) + signals);
    PrefixReads(prefix, Octets(part) + signals);
    PullOctets(part, signals, FromBigEndian(prefix));
  }

  lemma IllFormedReads(body: seq<byte>, signals: seq<Signal>, maximum: nat)
    requires |body| <= maximum && |body| <= MAXIMUM_DECLARED && !IsUtf8(body)
    ensures FrameAt(Octets(BigEndian(|body|) + body) + signals, maximum) == Decoded(Err(NotUtf8), signals)
  {
    PrefixRoundTrip(|body|);
    BodyReads(BigEndian(|body|), body, signals, maximum);
    assert body + [] == body;
  }

  lemma CutReads(bytes: seq<byte>, maximum: nat)
    requires bytes != [] && InFrame(bytes, maximum)
    ensures FrameAt(Octets(bytes), maximum) == Decoded(Err(Truncated), [])
  {
    if |bytes| < PREFIX_BYTES {
      PullShort(bytes, PREFIX_BYTES);
    } else {
      BodyReads(bytes[..PREFIX_BYTES], bytes[PREFIX_BYTES..], [], maximum);
      assert bytes[..PREFIX_BYTES] + bytes[PREFIX_BYTES..] == bytes;
      assert Octets(bytes) + [] == Octets(bytes);
    }
  }

  lemma BreakReads(signals: seq<Signal>, bytes: seq<byte>, fault: Fault, rest: seq<Signal>, maximum: nat)
    requires BrokenAfter(signals, bytes, fault, rest) && InFrame(bytes, maximum)
    ensures FrameAt(signals, maximum) ==
            Decoded(Err(if |bytes| >= PREFIX_BYTES && fault.UnexpectedEof? then Truncated else Io(fault)), rest)
  {
    var after := [Break(fault)] + rest;
    assert after[1..] == rest;
    if |bytes| < PREFIX_BYTES {
      PullOctets(bytes, after, PREFIX_BYTES);
    } else {
      BodyReads(bytes[..PREFIX_BYTES], bytes[PREFIX_BYTES..], after, maximum);
      assert bytes[..PREFIX_BYTES] + bytes[PREFIX_BYTES..] == bytes;
    }
  }

  /** Signals of each form are read as that form says. */
  lemma FormReads(signals: seq<Signal>, maximum: nat, d: Decoded)
    requires ReadsAs(signals, maximum, d)
    ensures FrameAt(signals, maximum) == d
  {
    match d.result
    case Ok(body) => EncodedFrameReads(body, d.rest, maximum);
    case Err(TooLarge(declared, _)) => OverlongReads(declared, d.rest, maximum);
    case Err(NotUtf8) =>
      var body: seq<byte> :| |body| <= maximum && |body| <= MAXIMUM_DECLARED && !IsUtf8(body)
                             && signals == Octets(BigEndian(|body|) + body) + d.rest;
      IllFormedReads(body, d.rest, maximum);
    case Err(Closed) =>
    case Err(Truncated) =>
      var bytes :|
        || (signals == Octets(bytes) && d.rest == [] && bytes != [] && InFrame(bytes, maximum))
        || (BrokenAfter(signals, bytes, UnexpectedEof, d.rest) && InBody(bytes, maximum));
      if signals == Octets(bytes) && d.rest == [] && bytes != [] && InFrame(bytes, maximum) {
        CutReads(bytes, maximum);
      } else {
        BreakReads(signals, bytes, UnexpectedEof, d.rest, maximum);
      }
    case Err(Io(fault)) =>
      var bytes :| BrokenAfter(signals, bytes, fault, d.rest)
                   && (|bytes| < PREFIX_BYTES || (InBody(bytes, maximum) && !fault.UnexpectedEof?));
      BreakReads(signals, bytes, fault, d.rest, maximum);
  }

  /** Where a pull stops short, and with what in hand. */
  lemma {:induction false} PulledShort(signals: seq<Signal>, n: nat) returns (bytes: seq<byte>)
    requires !Pull(signals, n).Filled?
    ensures |bytes| < n
    ensures var p := Pull(signals, n);
            if p.RanOut? then signals == Octets(bytes) else BrokenAfter(signals, bytes, p.fault, p.rest)
    decreases n
  {
    if signals == [] || signals[0].Break? {
      bytes := [];
      if signals != [] {
        assert signals == [signals[0]] + signals[1..];
      }
    } else {
      var later := PulledShort(signals[1..], n - 1);
      bytes := [signals[0].value] + later;
      assert signals == [signals[0]] + signals[1..];
    }
  }

  lemma ShortPrefixReads(signals: seq<Signal>, maximum: nat)
    requires !Pull(signals, PREFIX_BYTES).Filled?
    ensures ReadsAs(signals, maximum, FrameAt(signals, maximum))
  {
    var bytes := PulledShort(signals, PREFIX_BYTES);
    assert Octets([]) == [];
  }

  /** The bytes of a frame whose body stops short, prefix and all. */
  lemma ShortBody(signals: seq<Signal>, prefix: seq<byte>, after: seq<Signal>, maximum: nat) returns (bytes: seq<byte>)
    requires |prefix| == PREFIX_BYTES && signals == Octets(prefix) + after
    requires FromBigEndian(prefix) <= maximum && !Pull(after, FromBigEndian(prefix)).Filled?
    ensures InBody(bytes, maximum)
    ensures var p := Pull(after, FromBigEndian(prefix));
            if p.RanOut? then signals == Octets(bytes) else BrokenAfter(signals, bytes, p.fault, p.rest)
  {
    var part := PulledShort(after, FromBigEndian(prefix));
    bytes := prefix + part;
    assert bytes[..PREFIX_BYTES] == prefix;
    OctetsConcat(prefix, part);
  }

  lemma ShortBodyReads(signals: seq<Signal>, prefix: seq<byte>, after: seq<Signal>, maximum: nat)
    requires |prefix| == PREFIX_BYTES && signals == Octets(prefix) + after
    requires FromBigEndian(prefix) <= maximum && !Pull(after, FromBigEndian(prefix)).Filled?
    ensures ReadsAs(signals, maximum, FrameAt(signals, maximum))
  {
    var bytes := ShortBody(signals, prefix, after, maximum);
    var p := Pull(after, FromBigEndian(prefix));
    if p.RanOut? {
      CutReads(bytes, maximum);
    } else {
      BreakReads(signals, bytes, p.fault, p.rest, maximum);
    }
  }

  lemma WholeBodyReads(prefix: seq<byte>, body: seq<byte>, rest: seq<Signal>, maximum: nat)
    requires |prefix| == PREFIX_BYTES && |body| == FromBigEndian(prefix) <= maximum
    ensures var signals := Octets(prefix) + (Octets(body) + rest);
            ReadsAs(signals, maximum, FrameAt(signals, maximum))
  {
    PrefixIsCanonical(prefix);
    OctetsConcat(prefix, body);
    assert Octets(prefix) + (Octets(body) + rest) == Octets(prefix + body) + rest;
    if IsUtf8(body) {
      EncodedFrameReads(body, rest, maximum);
    } else {
      IllFormedReads(body, rest, maximum);
    }
  }

  lemma PrefixedReads(signals: seq<Signal>, prefix: seq<byte>, after: seq<Signal>, maximum: nat)
    requires |prefix| == PREFIX_BYTES && signals == Octets(prefix) + after
    ensures ReadsAs(signals, maximum, FrameAt(signals, maximum))
  {
    var declared := FromBigEndian(prefix);
    if declared > maximum {
      PrefixIsCanonical(prefix);
      OverlongReads(declared, after, maximum);
    } else if Pull(after, declared).Filled? {
      WholeBodyReads(prefix, Pull(after, declared).bytes, Pull(after, declared).rest, maximum);
    } else {
      ShortBodyReads(signals, prefix, after, maximum);
    }
  }

  /**
   All that a reader can make of a transport, and when: a body, where the signals start with its
   encoding; an over-long frame, where they start with a length above the maximum; ill-formed text; a
   clean end, where there are no signals; a frame cut off by the end or by a hard error, or that error
   itself. What it leaves unread is told in each case too.
   */
  lemma FrameReadsExactly(signals: seq<Signal>, maximum: nat, d: Decoded)
    ensures FrameAt(signals, maximum) == d <==> ReadsAs(signals, maximum, d)
  {
    if ReadsAs(signals, maximum, d) {
      FormReads(signals, maximum, d);
    } else if Pull(signals, PREFIX_BYTES).Filled? {
      PrefixedReads(signals, Pull(signals, PREFIX_BYTES).bytes, Pull(signals, PREFIX_BYTES).rest, maximum);
    } else {
      ShortPrefixReads(signals, maximum);
    }
  }

  // ---------------------------------------------------------------------------------------------
  // Whole streams

  lemma FrameIsEncoded(signals: seq<Signal>, maximum: nat)
    requires FrameAt(signals, maximum).result.Ok?
    ensures var d := FrameAt(signals, maximum);
            Fits(d.result.value, maximum) && signals == Octets(Encode(d.result.value)) + d.rest
  {
    FrameReadsExactly(signals, maximum, FrameAt(signals, maximum));
  }

  /**
   Framing is unambiguous: a stream that is read to a clean end is exactly the encoding of the
   frames that were read, so no two lists of bodies share a wire form.
   */
  lemma {:induction false} StreamIsCanonical(signals: seq<Signal>, maximum: nat)
    requires ReadAll(signals, maximum).ending.Closed?
    ensures var bodies := ReadAll(signals, maximum).bodies;
            AllFit(bodies, maximum) && signals == Octets(EncodeAll(bodies))
    decreases |signals|
  {
    var d := FrameAt(signals, maximum);
    if d.result.Ok? {
      FrameIsEncoded(signals, maximum);
      StreamIsCanonical(d.rest, maximum);
      var later := ReadAll(d.rest, maximum).bodies;
      assert ([d.result.value] + later)[1..] == later;
      OctetsConcat(Encode(d.result.value), EncodeAll(later));
    } else {
      assert Pull(signals, PREFIX_BYTES) == RanOut(0);
    }
  }

  lemma FirstThenReads(bodies: seq<Text>, signals: seq<Signal>, maximum: nat)
    requires AllFit(bodies, maximum) && bodies != []
    ensures ReadAll(Octets(EncodeAll(bodies)) + signals, maximum) ==
            First(bodies[0], ReadAll(Octets(EncodeAll(bodies[1..])) + signals, maximum))
  {
    var after := Octets(EncodeAll(bodies[1..])) + signals;
    OctetsConcat(Encode(bodies[0]), EncodeAll(bodies[1..]));
    assert Octets(EncodeAll(bodies)) + signals == Octets(Encode(bodies[0])) + after;
    EncodedFrameReads(bodies[0], after, maximum);
  }

  /** These frames, and then whatever a later part of the stream holds. */
  function Before(bodies: seq<Text>, later: Conversation): Conversation {
    Conversation(bodies + later.bodies, later.ending)
  }

  lemma FirstBefore(bodies: seq<Text>, later: Conversation)
    requires bodies != []
    ensures First(bodies[0], Before(bodies[1..], later)) == Before(bodies, later)
  {
    assert [bodies[0]] + (bodies[1..] + later.bodies) == bodies + later.bodies;
  }

  /** A stream that begins with whole frames reads as those, and then as what follows them. */
  lemma {:induction false} StreamThenReads(bodies: seq<Text>, signals: seq<Signal>, maximum: nat)
    requires AllFit(bodies, maximum)
    ensures ReadAll(Octets(EncodeAll(bodies)) + signals, maximum) == Before(bodies, ReadAll(signals, maximum))
  {
    if bodies == [] {
      assert Octets(EncodeAll(bodies)) + signals == signals;
      assert bodies + ReadAll(signals, maximum).bodies == ReadAll(signals, maximum).bodies;
    } else {
      FirstThenReads(bodies, signals, maximum);
      StreamThenReads(bodies[1..], signals, maximum);
      FirstBefore(bodies, ReadAll(signals, maximum));
    }
  }

  /** Bodies written in order read back as the same list, and then the connection ends cleanly. */
  lemma StreamRoundTrip(bodies: seq<Text>, maximum: nat)
    requires AllFit(bodies, maximum)
    ensures ReadAll(Octets(EncodeAll(bodies)), maximum) == Conversation(bodies, Closed)
  {
    StreamThenReads(bodies, [], maximum);
    assert Octets(EncodeAll(bodies)) + [] == Octets(EncodeAll(bodies));
    assert bodies + [] == bodies;
  }

  /** Whole frames and then a length above the maximum: the frames are read, and that is where reading ends. */
  lemma OverlongStream(bodies: seq<Text>, declared: nat, rest: seq<Signal>, maximum: nat)
    requires AllFit(bodies, maximum) && maximum < declared <= MAXIMUM_DECLARED
    ensures ReadAll(Octets(EncodeAll(bodies)) + (Octets(BigEndian(declared)) + rest), maximum) ==
            Conversation(bodies, TooLarge(declared, maximum))
  {
    StreamThenReads(bodies, Octets(BigEndian(declared)) + rest, maximum);
    OverlongReads(declared, rest, maximum);
  }

  // ---------------------------------------------------------------------------------------------
  // The prefix law

  /** How many whole frames the first `n` bytes of an encoding hold. */
  function WholeFrames(bodies: seq<Text>, n: nat): (k: nat)
    requires AllFit(bodies, MAXIMUM_DECLARED)
    ensures k <= |bodies|
  {
    if bodies == [] || n < |Encode(bodies[0])| then
      0
    else
      1 + WholeFrames(bodies[1..], n - |Encode(bodies[0])|)
  }

  /** `WholeFrames` is the largest number of frames whose encoding is at most `n` bytes long. */
  lemma {:induction false} WholeFramesIsLargest(bodies: seq<Text>, n: nat)
    requires AllFit(bodies, MAXIMUM_DECLARED)
    ensures |EncodeAll(bodies[..WholeFrames(bodies, n)])| <= n
    ensures forall k :: WholeFrames(bodies, n) < k <= |bodies| ==> n < |EncodeAll(bodies[..k])|
  {
    var whole := WholeFrames(bodies, n);
    if bodies == [] {
    } else {
      var head := |Encode(bodies[0])|;
      if n >= head {
        WholeFramesIsLargest(bodies[1..], n - head);
        assert bodies[..whole][1..] == bodies[1..][..whole - 1];
      }
      forall k | whole < k <= |bodies| ensures n < |EncodeAll(bodies[..k])| {
        assert bodies[..k][1..] == bodies[1..][..k - 1];
        if n >= head {
          assert n - head < |EncodeAll(bodies[1..][..k - 1])|;
        }
      }
    }
  }

  lemma CutFrameTruncates(body: Text, n: nat, maximum: nat)
    requires Fits(body, maximum) && n < |Encode(body)|
    ensures FrameAt(Octets(Encode(body)[..n]), maximum).result
         == Err(if n == 0 then Closed else Truncated)
  {
    var cut := Encode(body)[..n];
    if n < PREFIX_BYTES {
      PullShort(cut, PREFIX_BYTES);
    } else {
      var prefix, part := BigEndian(|body|), body[..n - PREFIX_BYTES];
      assert cut == prefix + part;
      OctetsConcat(prefix, part);
      PullOctets(prefix, Octets(part), PREFIX_BYTES);
      assert prefix + [] == prefix;
      PrefixRoundTrip(|body|);
      PullShort(part, |body|);
    }
  }

  /** What a reader makes of an encoded stream that stops after `n` bytes. */
  function Cut(bodies: seq<Text>, n: nat): Conversation
    requires AllFit(bodies, MAXIMUM_DECLARED)
  {
    var whole := bodies[..WholeFrames(bodies, n)];
    Conversation(whole, if |EncodeAll(whole)| == n then Closed else Truncated)
  }

  lemma CutAfterFirst(bodies: seq<Text>, n: nat)
    requires AllFit(bodies, MAXIMUM_DECLARED)
    requires bodies != [] && |Encode(bodies[0])| <= n
    ensures Cut(bodies, n) == First(bodies[0], Cut(bodies[1..], n - |Encode(bodies[0])|))
  {
    var whole := bodies[..WholeFrames(bodies, n)];
    var later := Cut(bodies[1..], n - |Encode(bodies[0])|).bodies;
    assert whole[1..] == later;
    assert whole == [bodies[0]] + later;
  }

  lemma CutInFirst(bodies: seq<Text>, n: nat, maximum: nat)
    requires AllFit(bodies, maximum) && n <= |EncodeAll(bodies)|
    requires bodies == [] || n < |Encode(bodies[0])|
    ensures ReadAll(Octets(EncodeAll(bodies)[..n]), maximum) == Cut(bodies, n)
  {
    assert bodies[..0] == [];
    if bodies != [] {
      assert EncodeAll(bodies)[..n] == Encode(bodies[0])[..n];
      CutFrameTruncates(bodies[0], n, maximum);
    }
  }

  lemma FirstThenCut(bodies: seq<Text>, n: nat)
    requires AllFit(bodies, MAXIMUM_DECLARED)
    requires bodies != [] && |Encode(bodies[0])| <= n <= |EncodeAll(bodies)|
    ensures n - |Encode(bodies[0])| <= |EncodeAll(bodies[1..])|
    ensures EncodeAll(bodies)[..n] == Encode(bodies[0]) + EncodeAll(bodies[1..])[..n - |Encode(bodies[0])|]
  {
  }

  lemma ReadAfterFirst(bodies: seq<Text>, n: nat, maximum: nat)
    requires AllFit(bodies, maximum)
    requires bodies != [] && |Encode(bodies[0])| <= n <= |EncodeAll(bodies)|
    ensures ReadAll(Octets(EncodeAll(bodies)[..n]), maximum)
         == First(bodies[0], ReadAll(Octets(EncodeAll(bodies[1..])[..n - |Encode(bodies[0])|]), maximum))
  {
    var cut := EncodeAll(bodies[1..])[..n - |Encode(bodies[0])|];
    FirstThenCut(bodies, n);
    OctetsConcat(Encode(bodies[0]), cut);
    EncodedFrameReads(bodies[0], Octets(cut), maximum);
  }

  lemma PrefixLawAfterFirst(bodies: seq<Text>, n: nat, maximum: nat)
    requires AllFit(bodies, maximum)
    requires bodies != [] && |Encode(bodies[0])| <= n <= |EncodeAll(bodies)|
    requires var tail, m := bodies[1..], n - |Encode(bodies[0])|;
             ReadAll(Octets(EncodeAll(tail)[..m]), maximum) == Cut(tail, m)
    ensures ReadAll(Octets(EncodeAll(bodies)[..n]), maximum) == Cut(bodies, n)
  {
    ReadAfterFirst(bodies, n, maximum);
    CutAfterFirst(bodies, n);
  }

  /**
   The prefix law: the first `n` bytes of an encoded stream yield its whole frames, then a clean
   end when `n` falls on a frame boundary and a truncation when it falls inside a frame.
   */
  lemma {:induction false} PrefixLaw(bodies: seq<Text>, n: nat, maximum: nat)
    requires AllFit(bodies, maximum)
    requires n <= |EncodeAll(bodies)|
    ensures ReadAll(Octets(EncodeAll(bodies)[..n]), maximum) == Cut(bodies, n)
  {
    if bodies == [] || n < |Encode(bodies[0])| {
      CutInFirst(bodies, n, maximum);
    } else {
      var tail, m := bodies[1..], n - |Encode(bodies[0])|;
      FirstThenCut(bodies, n);
      PrefixLaw(tail, m, maximum);
      PrefixLawAfterFirst(bodies, n, maximum);
    }
  }
}

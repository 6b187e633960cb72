/**
 What the client sees of a conversation: one reply for each frame, in order, that echoes the request
 it answers, and bytes that read back as exactly those replies.
 */
module Replies {
  import opened Wrappers
  import opened Json
  import opened Utf8
  import opened Frame
  import opened FrameIO
  import opened Message
  import opened Engine
  import opened Session
  import opened Automaton
  import opened Protocol
  import opened Transcripts

  // ---------------------------------------------------------------------------------------------
  // Replies echo their requests

  /** The identifiers that are outstanding, as far as the transcript tells. */
  function StuckOf(v: View): set<string> {
    if v.txn == None then {} else v.txn.value.stuck
  }

  /** The one reply a first message gets. */
  function GreetingReply(w: World, document: Option<Json>): Reply {
    match Handshake(document)
    case Ok(version) => Welcome(version, w.endpoint)
    case Err(_) => Unwelcome(Message.SUPPORTED_VERSIONS)
  }

  /**
   The reply to a frame that comes after a transcript. If a request decodes from it, the reply carries
   the `request_id` that the message states. If none does, it carries none, and the rule that the
   decoder refuses the message with; before the handshake it is the handshake's reply.
   */
  ghost predicate Echoes(w: World, v: View, x: Exchange) {
    match x.body
    case None =>
      && v.greeted && v.txn == None && x.request == None
      && x.reply.Refusal? && x.reply.about == None && x.reply.rule == FrameTooLarge
    case Some(body) =>
      if !v.greeted then x.request == None && x.reply == GreetingReply(w, w.parse(body))
      else
        match DecodeRequest(w.parse(body), StuckOf(v))
        case Err(rule) =>
          x.request == None && x.reply.Refusal? && x.reply.about == None && x.reply.rule == rule
        case Ok(request) =>
          && x.request == Some(request) && AboutOf(x.reply) == Some(request.requestId)
          && AsStr(Get(MembersOf(w.parse(body)), "request_id")) == Some(request.requestId)
  }

  lemma ServeAnswersRequest(w: World, c: Conn, session: Option<Session>, body: Text, request: Request)
    ensures var x := ServeStep(w, c, session, body, request).said[0];
            x.body == Some(body) && x.request == Some(request) && AboutOf(x.reply) == Some(request.requestId)
  {
  }

  lemma RegionAnswersRequest(w: World, c: Conn, m: Mode, body: Text, request: Request)
    requires m.InTransaction?
    ensures var x := RegionRequest(w, c, m, body, request).said[0];
            x.body == Some(body) && x.request == Some(request) && AboutOf(x.reply) == Some(request.requestId)
  {
  }

  ghost predicate AllEcho(w: World, v: View, said: seq<Exchange>) {
    |said| <= 1 && forall x :: x in said ==> Echoes(w, v, x)
  }

  lemma RequestStepEchoes(w: World, c: Conn, session: Option<Session>, read: Result<Text, FrameError>, v: View)
    requires c.mode == Resting(session) && ModeAgrees(c, v)
    ensures AllEcho(w, v, RequestStep(w, c, session, read).said)
  {
    if read.Ok? && DecodeRequest(w.parse(read.value), {}).Ok? {
      DecodedFromMembers(w.parse(read.value), {});
      ServeAnswersRequest(w, c, session, read.value, DecodeRequest(w.parse(read.value), {}).value);
    }
  }

  lemma RegionStepEchoes(w: World, c: Conn, read: Result<Text, FrameError>, v: View)
    requires c.mode.InTransaction? && ModeAgrees(c, v)
    ensures AllEcho(w, v, RegionStep(w, c, c.mode, read).said)
  {
    if read.Ok? && DecodeRequest(w.parse(read.value), c.mode.stuck).Ok? {
      DecodedFromMembers(w.parse(read.value), c.mode.stuck);
      RegionAnswersRequest(w, c, c.mode, read.value, DecodeRequest(w.parse(read.value), c.mode.stuck).value);
    }
  }

  lemma NextEchoes(w: World, c: Conn, v: View)
    requires !c.mode.Finished? && ModeAgrees(c, v)
    ensures AllEcho(w, v, Next(w, c).said)
  {
    var d := FrameAt(c.wire, w.maxFrameBytes);
    var c' := c.(wire := d.rest);
    match c.mode
    case Greeting =>
    case Idle => RequestStepEchoes(w, c', None, d.result, v);
    case InSession(session) => RequestStepEchoes(w, c', Some(session), d.result, v);
    case InTransaction(_, _, _) => RegionStepEchoes(w, c', d.result, v);
  }

  lemma MachineEchoes(w: World, c: Conn, v: View, i: nat)
    requires ModeAgrees(c, v) && i < |Machine(w)(c).said|
    ensures Echoes(w, Replay(ViewStep, v, Machine(w)(c).said[..i]), Machine(w)(c).said[i])
  {
    NextEchoes(w, c, v);
    assert Machine(w)(c).said[..i] == [];
  }

  lemma MachineModes(w: World, c: Conn, v: View)
    requires ModeAgrees(c, v)
    ensures ModeAgrees(Machine(w)(c).after, Replay(ViewStep, v, Machine(w)(c).said))
  {
    if !c.mode.Finished? {
      NextAgrees(w, c, v);
      HeardIsReplay(v, Next(w, c).said);
    }
  }

  /**
   Every reply of every conversation answers its own frame, in the light of everything said before it:
   no message that decodes is refused, and none that is refused could have been decoded.
   */
  lemma RepliesEchoRequests(w: World, wire: seq<Signal>, sent: Sent, store: Store, i: nat)
    requires i < |Transcript(w, Opening(wire, sent, store))|
    ensures var xs := Transcript(w, Opening(wire, sent, store));
            Echoes(w, ViewOf(xs[..i]), xs[i])
  {
    var c := Opening(wire, sent, store);
    var echoes := (v: View, x: Exchange) => Echoes(w, v, x);
    forall c', v ensures KeepsAgreement(Machine(w), ViewStep, ModeAgrees, c', v) {
      if ModeAgrees(c', v) {
        MachineModes(w, c', v);
      }
    }
    forall c', v ensures SaysFitly(Machine(w), ViewStep, ModeAgrees, echoes, c', v) {
      if ModeAgrees(c', v) {
        forall j | 0 <= j < |Machine(w)(c').said|
          ensures Echoes(w, Replay(ViewStep, v, Machine(w)(c').said[..j]), Machine(w)(c').said[j])
        {
          MachineEchoes(w, c', v, j);
        }
      }
    }
    StepsFit(Machine(w), ViewStep, ModeAgrees, echoes, c, NOTHING_SAID, Enough(c), i);
  }

  // ---------------------------------------------------------------------------------------------
  // The row ceiling

  predicate WithinCeiling(w: World, reply: Reply) {
    reply.Accepted? && reply.payload.Envelope? ==> |reply.payload.rows| <= w.maxResultRows
  }

  lemma OneRunWithin(w: World, store: Store, path: string, statement: string, version: nat, id: string)
    ensures WithinCeiling(w, RunOneOf(w, store, path, statement, version, id).reply)
  {
  }

  lemma ServeWithin(w: World, c: Conn, session: Option<Session>, body: Text, request: Request)
    ensures WithinCeiling(w, ServeStep(w, c, session, body, request).said[0].reply)
  {
    match request.operation
    case Query =>
      if ResolveOf(session, request.sessionId).Ok? && request.statement.Some? {
        OneRunWithin(w, c.store, session.value.path, request.statement.value, c.version, request.requestId);
      }
    case OpenSession => OpenSessionReply(w, SlotState(session, c.next), c.store, request, c.version);
    case _ =>
  }

  lemma RegionWithin(w: World, c: Conn, m: Mode, body: Text, request: Request)
    requires m.InTransaction?
    ensures WithinCeiling(w, RegionRequest(w, c, m, body, request).said[0].reply)
  {
  }

  lemma RequestStepWithin(w: World, c: Conn, session: Option<Session>, read: Result<Text, FrameError>)
    ensures forall x :: x in RequestStep(w, c, session, read).said ==> WithinCeiling(w, x.reply)
  {
    if read.Ok? && DecodeRequest(w.parse(read.value), {}).Ok? {
      ServeWithin(w, c, session, read.value, DecodeRequest(w.parse(read.value), {}).value);
    }
  }

  lemma NextWithin(w: World, c: Conn)
    requires !c.mode.Finished?
    ensures forall x :: x in Next(w, c).said ==> WithinCeiling(w, x.reply)
  {
    var d := FrameAt(c.wire, w.maxFrameBytes);
    var c' := c.(wire := d.rest);
    match c.mode
    case Greeting =>
    case Idle => RequestStepWithin(w, c', None, d.result);
    case InSession(session) => RequestStepWithin(w, c', Some(session), d.result);
    case InTransaction(_, _, stuck) =>
      if d.result.Ok? && DecodeRequest(w.parse(d.result.value), stuck).Ok? {
        RegionWithin(w, c', c.mode, d.result.value, DecodeRequest(w.parse(d.result.value), stuck).value);
      }
  }

  /** The ceiling bounds what crosses the socket: no reply of any conversation carries more rows. */
  lemma RepliesWithinCeiling(w: World, c: Conn)
    ensures forall x :: x in Transcript(w, c) ==> WithinCeiling(w, x.reply)
  {
    var p := (x: Exchange) => WithinCeiling(w, x.reply);
    forall c' ensures SaysOnly(Machine(w), p, c') {
      if !c'.mode.Finished? {
        NextWithin(w, c');
      }
    }
    StepsSayOnly(Machine(w), p, c, Enough(c));
  }

  // ---------------------------------------------------------------------------------------------
  // One reply for each frame, in order

  predicate Fitting(w: World, x: Exchange) {
    Fits(w.render(x.reply), w.maxFrameBytes)
  }

  predicate AllFitting(w: World, xs: seq<Exchange>) {
    forall i :: 0 <= i < |xs| ==> Fitting(w, xs[i])
  }

  /** No write call that the conversation makes fails, and every reply that it has fits the frame maximum. */
  ghost predicate Deliverable(w: World, c: Conn) {
    Unbroken(w.faults, c.sent.calls, Run(w, c).sent.calls) && AllFitting(w, Transcript(w, c))
  }

  function BodyOf(x: Exchange): seq<Text> {
    match x.body
    case Some(body) => [body]
    case None => []
  }

  /** The frames that were answered, in order. */
  function AnsweredBodies(xs: seq<Exchange>): seq<Text>
    decreases |xs|
  {
    if xs == [] then [] else BodyOf(xs[0]) + AnsweredBodies(xs[1..])
  }

  /** An over-long frame was answered. */
  predicate AnsweredTooLarge(xs: seq<Exchange>) {
    exists i :: 0 <= i < |xs| && xs[i].body == None
  }

  /** All of this heard as one goes along: `fitting` says that every reply so far fits. */
  datatype Answered = Answered(bodies: seq<Text>, tooLarge: bool, view: View, fitting: bool)

  function HearOne(w: World, a: Answered, x: Exchange): Answered {
    Answered(a.bodies + BodyOf(x), a.tooLarge || x.body == None, ViewStep(a.view, x), a.fitting && Fitting(w, x))
  }

  ghost function Hear(w: World): (Answered, Exchange) -> Answered {
    (a: Answered, x: Exchange) => HearOne(w, a, x)
  }

  const NOTHING_ANSWERED := Answered([], false, NOTHING_SAID, true)

  lemma {:induction false} HearingBodies(w: World, a: Answered, xs: seq<Exchange>)
    ensures Replay(Hear(w), a, xs).bodies == a.bodies + AnsweredBodies(xs)
    decreases |xs|
  {
    if xs == [] {
      assert a.bodies + [] == a.bodies;
    } else {
      HearingBodies(w, HearOne(w, a, xs[0]), xs[1..]);
      var first, rest := BodyOf(xs[0]), AnsweredBodies(xs[1..]);
      assert a.bodies + first + rest == a.bodies + (first + rest);
    }
  }

  lemma FirstAndRest(w: World, xs: seq<Exchange>)
    requires xs != []
    ensures AllFitting(w, xs) <==> Fitting(w, xs[0]) && AllFitting(w, xs[1..])
    ensures AnsweredTooLarge(xs) <==> xs[0].body == None || AnsweredTooLarge(xs[1..])
  {
    var rest := xs[1..];
    assert forall i :: 0 <= i < |rest| ==> rest[i] == xs[i + 1];
    assert forall i :: 0 < i < |xs| ==> xs[i] == rest[i - 1];
  }

  lemma {:induction false} HearingTells(w: World, a: Answered, xs: seq<Exchange>)
    ensures Replay(Hear(w), a, xs).tooLarge <==> a.tooLarge || AnsweredTooLarge(xs)
    ensures Replay(Hear(w), a, xs).fitting <==> a.fitting && AllFitting(w, xs)
    decreases |xs|
  {
    if xs == [] {
    } else {
      HearingTells(w, HearOne(w, a, xs[0]), xs[1..]);
      FirstAndRest(w, xs);
    }
  }

  lemma {:induction false} HearingViews(w: World, a: Answered, xs: seq<Exchange>)
    ensures Replay(Hear(w), a, xs).view == Replay(ViewStep, a.view, xs)
    decreases |xs|
  {
    if xs == [] {
    } else {
      HearingViews(w, HearOne(w, a, xs[0]), xs[1..]);
    }
  }

  /** Ended by the client or the transport, rather than by a refusal or a shutdown. */
  predicate RanOut(how: Ended) {
    how.ClientClosed? || how.TransportFailed?
  }

  /** The conversation went on to the end of the input, which decided how it ended. */
  predicate EndedWith(all: Conversation, how: Ended, a: Answered) {
    && a.bodies == all.bodies
    && (how.ClientClosed? <==> all.ending.Closed?)
    && (a.tooLarge <==> all.ending.TooLarge? && a.view.greeted && a.view.txn == None)
  }

  /** `from` is how many write calls had been made when the conversation began. */
  ghost predicate Accounts(w: World, all: Conversation, from: nat, c: Conn, a: Answered) {
    && ModeAgrees(c, a.view) && from <= c.sent.calls
    && (!c.mode.Finished? ==>
          && !a.tooLarge
          && a.bodies + ReadAll(c.wire, w.maxFrameBytes).bodies == all.bodies
          && ReadAll(c.wire, w.maxFrameBytes).ending == all.ending)
    && (c.mode.Finished? ==>
          && a.bodies <= all.bodies
          && (a.tooLarge ==> a.bodies == all.bodies && all.ending.TooLarge?)
          && (Unbroken(w.faults, from, c.sent.calls) && a.fitting && RanOut(c.mode.how) ==>
                EndedWith(all, c.mode.how, a)))
  }

  /** What a step says of a frame it could not read. */
  function UnreadReply(c: Conn, error: FrameError): seq<Exchange> {
    if error.TooLarge? && (c.mode.Idle? || c.mode.InSession?) then
      [Exchange(None, None, Refusal(c.version, None, FrameTooLarge), None, None)]
    else []
  }

  lemma UnreadStep(w: World, c: Conn)
    requires !c.mode.Finished? && FrameAt(c.wire, w.maxFrameBytes).result.Err?
    ensures var error := FrameAt(c.wire, w.maxFrameBytes).result.error;
            && Next(w, c).said == UnreadReply(c, error)
            && Next(w, c).after.mode == Finished(if error.Closed? then ClientClosed else TransportFailed)
  {
  }

  /** A step that goes well says one thing about the frame, and does not end the conversation by itself. */
  ghost predicate AnswersFrame(w: World, c: Conn, body: Text, s: Move) {
    && |s.said| == 1 && s.said[0].body == Some(body) && c.sent.calls <= s.after.sent.calls
    && (Unbroken(w.faults, c.sent.calls, s.after.sent.calls) && Fitting(w, s.said[0]) && s.after.mode.Finished? ==>
          !RanOut(s.after.mode.how))
  }

  lemma FittingSend(w: World, sent: Sent, reply: Reply)
    ensures var write := Saying(w, sent, reply);
            && sent.calls <= write.sent.calls
            && (Unbroken(w.faults, sent.calls, write.sent.calls) && Fits(w.render(reply), w.maxFrameBytes) ==>
                  write.result.Ok? && write.sent.bytes == sent.bytes + Encode(w.render(reply)))
  {
  }

  lemma ServeBody(w: World, c: Conn, session: Option<Session>, body: Text, request: Request)
    ensures AnswersFrame(w, c, body, ServeStep(w, c, session, body, request))
  {
    FittingSend(w, c.sent, ServeStep(w, c, session, body, request).said[0].reply);
  }

  lemma RequestBody(w: World, c: Conn, session: Option<Session>, body: Text)
    ensures AnswersFrame(w, c, body, RequestStep(w, c, session, Ok(body)))
  {
    match DecodeRequest(w.parse(body), {})
    case Err(_) =>
    case Ok(request) => ServeBody(w, c, session, body, request);
  }

  lemma RegionBody(w: World, c: Conn, m: Mode, body: Text)
    requires m.InTransaction?
    ensures AnswersFrame(w, c, body, RegionStep(w, c, m, Ok(body)))
  {
    match DecodeRequest(w.parse(body), m.stuck)
    case Err(rule) => FittingSend(w, c.sent, Refusal(c.version, None, rule));
    case Ok(request) =>
      RegionAnswersRequest(w, c, m, body, request);
      FittingSend(w, c.sent, RegionRequest(w, c, m, body, request).said[0].reply);
  }

  lemma ReadStep(w: World, c: Conn)
    requires !c.mode.Finished? && FrameAt(c.wire, w.maxFrameBytes).result.Ok?
    ensures AnswersFrame(w, c, FrameAt(c.wire, w.maxFrameBytes).result.value, Next(w, c))
  {
    var d := FrameAt(c.wire, w.maxFrameBytes);
    var c', body := c.(wire := d.rest), d.result.value;
    match c.mode
    case Greeting => FittingSend(w, c.sent, GreetingStep(w, c', d.result).said[0].reply);
    case Idle => RequestBody(w, c', None, body);
    case InSession(session) => RequestBody(w, c', Some(session), body);
    case InTransaction(_, _, _) => RegionBody(w, c', c.mode, body);
  }

  function HeardOf(w: World, a: Answered, said: seq<Exchange>): Answered
    requires |said| <= 1
  {
    if said == [] then a else HearOne(w, a, said[0])
  }

  /** Any step that answers the next frame, and moves past it, keeps the account. */
  lemma HearAccounts(w: World, all: Conversation, from: nat, c: Conn, a: Answered, after: Conn, x: Exchange)
    requires !c.mode.Finished? && Accounts(w, all, from, c, a)
    requires FrameAt(c.wire, w.maxFrameBytes).result.Ok?
    requires x.body == Some(FrameAt(c.wire, w.maxFrameBytes).result.value)
    requires after.wire == FrameAt(c.wire, w.maxFrameBytes).rest && ModeAgrees(after, ViewStep(a.view, x))
    requires c.sent.calls <= after.sent.calls
    requires Unbroken(w.faults, c.sent.calls, after.sent.calls) && Fitting(w, x) && after.mode.Finished? ==>
               !RanOut(after.mode.how)
    ensures Accounts(w, all, from, after, HearOne(w, a, x))
  {
    var d := FrameAt(c.wire, w.maxFrameBytes);
    var later := ReadAll(d.rest, w.maxFrameBytes).bodies;
    assert a.bodies + ([d.result.value] + later) == a.bodies + [d.result.value] + later;
  }

  lemma ReadAccounts(w: World, all: Conversation, from: nat, c: Conn, a: Answered)
    requires !c.mode.Finished? && Accounts(w, all, from, c, a)
    requires FrameAt(c.wire, w.maxFrameBytes).result.Ok?
    ensures Accounts(w, all, from, Next(w, c).after, HeardOf(w, a, Next(w, c).said))
  {
    NextAgrees(w, c, a.view);
    ReadStep(w, c);
    HearAccounts(w, all, from, c, a, Next(w, c).after, Next(w, c).said[0]);
  }

  lemma UnreadAccounts(w: World, all: Conversation, from: nat, c: Conn, a: Answered)
    requires !c.mode.Finished? && Accounts(w, all, from, c, a)
    requires FrameAt(c.wire, w.maxFrameBytes).result.Err?
    ensures Accounts(w, all, from, Next(w, c).after, HeardOf(w, a, Next(w, c).said))
  {
    NextAgrees(w, c, a.view);
    UnreadStep(w, c);
    assert a.bodies + [] == a.bodies;
  }

  lemma NextAccounts(w: World, all: Conversation, from: nat, c: Conn, a: Answered)
    requires !c.mode.Finished? && Accounts(w, all, from, c, a)
    ensures Accounts(w, all, from, Next(w, c).after, HeardOf(w, a, Next(w, c).said))
  {
    if FrameAt(c.wire, w.maxFrameBytes).result.Ok? {
      ReadAccounts(w, all, from, c, a);
    } else {
      UnreadAccounts(w, all, from, c, a);
    }
  }

  lemma HeardOfIsReplay(w: World, a: Answered, said: seq<Exchange>)
    requires |said| <= 1
    ensures HeardOf(w, a, said) == Replay(Hear(w), a, said)
  {
  }

  /** The account is right at every point of a conversation. */
  lemma StepsAccount(w: World, wire: seq<Signal>, sent: Sent, store: Store, n: nat)
    ensures var c := Opening(wire, sent, store);
            Accounts(w, ReadAll(wire, w.maxFrameBytes), sent.calls, After(Machine(w), c, n),
                     Replay(Hear(w), NOTHING_ANSWERED, SaidBy(Machine(w), c, n)))
  {
    var c, all := Opening(wire, sent, store), ReadAll(wire, w.maxFrameBytes);
    var accounts := (c': Conn, a: Answered) => Accounts(w, all, sent.calls, c', a);
    assert [] + all.bodies == all.bodies;
    forall c', a ensures KeepsAgreement(Machine(w), Hear(w), accounts, c', a) {
      if accounts(c', a) && !c'.mode.Finished? {
        NextAccounts(w, all, sent.calls, c', a);
        HeardOfIsReplay(w, a, Next(w, c').said);
      }
    }
    StepsAgree(Machine(w), Hear(w), accounts, c, NOTHING_ANSWERED, n);
  }

  lemma ConversationAccounts(w: World, wire: seq<Signal>, sent: Sent, store: Store)
    ensures var c := Opening(wire, sent, store);
            Accounts(w, ReadAll(wire, w.maxFrameBytes), sent.calls, Run(w, c),
                     Replay(Hear(w), NOTHING_ANSWERED, Transcript(w, c)))
  {
    StepsAccount(w, wire, sent, store, Enough(Opening(wire, sent, store)));
    ConversationEnds(w, Opening(wire, sent, store));
  }

  /** Nothing is said after an over-long frame is. */
  lemma NothingAfterTooLarge(w: World, wire: seq<Signal>, sent: Sent, store: Store, i: nat)
    requires i < |Transcript(w, Opening(wire, sent, store))|
    requires Transcript(w, Opening(wire, sent, store))[i].body == None
    ensures i == |Transcript(w, Opening(wire, sent, store))| - 1
  {
    var c := Opening(wire, sent, store);
    var xs := Transcript(w, c);
    if i + 1 < |xs| {
      assert xs[..i + 1][i].body == None;
      forall c' ensures |Machine(w)(c').said| <= 1 {
      }
      var n := SaidAt(Machine(w), c, Enough(c), i + 1);
      StepsAccount(w, wire, sent, store, n);
      HearingTells(w, NOTHING_ANSWERED, xs[..i + 1]);
      assert false;
    }
  }

  /**
   Replies match frames: whatever happens, the frames that are answered are the first frames of the
   input, each once and in order, and an over-long frame is answered last if at all. When no write
   fails and every reply of the conversation fits, a conversation that is not refused or shut down
   answers every complete frame, ends as the input ends, and answers an over-long frame exactly when
   it comes after the handshake and outside a transaction.
   */
  lemma RepliesMatchFrames(w: World, wire: seq<Signal>, sent: Sent, store: Store)
    ensures var c, all := Opening(wire, sent, store), ReadAll(wire, w.maxFrameBytes);
            var xs, how := Transcript(w, c), Run(w, c).mode.how;
            && AnsweredBodies(xs) <= all.bodies
            && (AnsweredTooLarge(xs) ==> AnsweredBodies(xs) == all.bodies && all.ending.TooLarge?)
            && (Deliverable(w, c) && RanOut(how) ==>
                  && AnsweredBodies(xs) == all.bodies
                  && (how.ClientClosed? <==> all.ending.Closed?)
                  && (AnsweredTooLarge(xs) <==>
                        all.ending.TooLarge? && ViewOf(xs).greeted && ViewOf(xs).txn == None))
  {
    var c, all := Opening(wire, sent, store), ReadAll(wire, w.maxFrameBytes);
    ConversationAccounts(w, wire, sent, store);
    HearingBodies(w, NOTHING_ANSWERED, Transcript(w, c));
    HearingTells(w, NOTHING_ANSWERED, Transcript(w, c));
    HearingViews(w, NOTHING_ANSWERED, Transcript(w, c));
    assert [] + AnsweredBodies(Transcript(w, c)) == AnsweredBodies(Transcript(w, c));
  }

  /** The refusal of an over-long frame: it answers no request. */
  predicate RefusesTooLarge(x: Exchange) {
    && x.body == None && x.request == None
    && x.reply.Refusal? && x.reply.about == None && x.reply.rule == FrameTooLarge
  }

  lemma AnsweredTooLargeLast(w: World, wire: seq<Signal>, sent: Sent, store: Store)
    requires AnsweredTooLarge(Transcript(w, Opening(wire, sent, store)))
    ensures var xs := Transcript(w, Opening(wire, sent, store));
            xs != [] && RefusesTooLarge(xs[|xs| - 1])
  {
    var xs := Transcript(w, Opening(wire, sent, store));
    var i :| 0 <= i < |xs| && xs[i].body == None;
    NothingAfterTooLarge(w, wire, sent, store, i);
    RepliesEchoRequests(w, wire, sent, store, i);
  }

  /**
   These frames were answered, and then the connection ended at an over-long one: with its refusal as
   the last reply past the handshake and outside a transaction, and otherwise without a word of it.
   */
  ghost predicate EndsTooLarge(w: World, c: Conn, bodies: seq<Text>) {
    var xs := Transcript(w, c);
    && Run(w, c).mode.how == TransportFailed && AnsweredBodies(xs) == bodies
    && if ViewOf(xs).greeted && ViewOf(xs).txn == None then xs != [] && RefusesTooLarge(xs[|xs| - 1])
       else !AnsweredTooLarge(xs)
  }

  lemma TooLargeIsRefusedLast(w: World, wire: seq<Signal>, sent: Sent, store: Store)
    requires ReadAll(wire, w.maxFrameBytes).ending.TooLarge?
    ensures var c := Opening(wire, sent, store);
            Deliverable(w, c) && RanOut(Run(w, c).mode.how) ==>
              EndsTooLarge(w, c, ReadAll(wire, w.maxFrameBytes).bodies)
  {
    RepliesMatchFrames(w, wire, sent, store);
    if AnsweredTooLarge(Transcript(w, Opening(wire, sent, store))) {
      AnsweredTooLargeLast(w, wire, sent, store);
    }
  }

  /**
   A client that sends whole frames and then four bytes that declare more than the maximum is answered
   every one of those frames. If it is then past the handshake and in no transaction, the last thing it
   hears is that its frame is too large; otherwise nothing is said of it.
   */
  lemma OverlongIsRefusedLast(
    w: World, bodies: seq<Text>, declared: nat, rest: seq<Signal>, sent: Sent, store: Store)
    requires AllFit(bodies, w.maxFrameBytes) && w.maxFrameBytes < declared <= MAXIMUM_DECLARED
    ensures var c := Opening(Octets(EncodeAll(bodies)) + (Octets(BigEndian(declared)) + rest), sent, store);
            Deliverable(w, c) && RanOut(Run(w, c).mode.how) ==> EndsTooLarge(w, c, bodies)
  {
    OverlongStream(bodies, declared, rest, w.maxFrameBytes);
    TooLargeIsRefusedLast(w, Octets(EncodeAll(bodies)) + (Octets(BigEndian(declared)) + rest), sent, store);
  }

  // ---------------------------------------------------------------------------------------------
  // The bytes of the replies

  ghost function Rendering(w: World): Exchange -> Text {
    (x: Exchange) => w.render(x.reply)
  }

  lemma {:induction false} EncodeAllAppend(bodies: seq<Text>, body: Text)
    requires AllFit(bodies, MAXIMUM_DECLARED) && |body| <= MAXIMUM_DECLARED
    ensures AllFit(bodies + [body], MAXIMUM_DECLARED)
    ensures EncodeAll(bodies + [body]) == EncodeAll(bodies) + Encode(body)
  {
    if bodies == [] {
      assert [body][1..] == [];
      assert [] + [body] == [body];
    } else {
      var tail := bodies[1..];
      assert AllFit(tail, MAXIMUM_DECLARED);
      EncodeAllAppend(tail, body);
      assert (bodies + [body])[1..] == tail + [body];
      assert Encode(bodies[0]) + (EncodeAll(tail) + Encode(body)) == Encode(bodies[0]) + EncodeAll(tail) + Encode(body);
    }
  }

  /** As long as no write fails and every reply fits, the peer has got them all, each in a frame of its own. */
  ghost predicate Delivered(w: World, start: Sent, sent: Sent, bodies: seq<Text>) {
    && start.calls <= sent.calls
    && (Unbroken(w.faults, start.calls, sent.calls) && AllFit(bodies, w.maxFrameBytes) ==>
          sent.bytes == start.bytes + EncodeAll(bodies))
  }

  /** A step sends what it says, and nothing else. */
  lemma NextSends(w: World, c: Conn)
    requires !c.mode.Finished?
    ensures var s := Next(w, c);
            s.after.sent == if s.said == [] then c.sent else Saying(w, c.sent, s.said[0].reply).sent
  {
  }

  lemma DeliverOne(w: World, start: Sent, sent: Sent, reply: Reply, bodies: seq<Text>)
    requires Delivered(w, start, sent, bodies)
    ensures Delivered(w, start, Saying(w, sent, reply).sent, bodies + [w.render(reply)])
  {
    var after, body := Saying(w, sent, reply).sent, w.render(reply);
    FittingSend(w, sent, reply);
    if Unbroken(w.faults, start.calls, after.calls) && AllFit(bodies + [body], w.maxFrameBytes) {
      assert bodies == (bodies + [body])[..|bodies|] && body == (bodies + [body])[|bodies|];
      assert AllFit(bodies, w.maxFrameBytes) by {
        assert forall i :: 0 <= i < |bodies| ==> bodies[i] == (bodies + [body])[i];
      }
      EncodeAllAppend(bodies, body);
      assert start.bytes + EncodeAll(bodies) + Encode(body) == start.bytes + (EncodeAll(bodies) + Encode(body));
    }
  }

  lemma MachineDelivers(w: World, start: Sent, c: Conn, bodies: seq<Text>)
    requires Delivered(w, start, c.sent, bodies)
    ensures var s := Machine(w)(c);
            Delivered(w, start, s.after.sent, Replay(Collecting(Rendering(w)), bodies, s.said))
  {
    var said := Machine(w)(c).said;
    ReplayCollects(Rendering(w), bodies, said);
    if !c.mode.Finished? {
      NextSends(w, c);
    }
    if said == [] {
      assert bodies + Made(Rendering(w), said) == bodies;
    } else {
      assert Made(Rendering(w), said) == [w.render(said[0].reply)];
      DeliverOne(w, start, c.sent, said[0].reply, bodies);
    }
  }

  lemma ConversationDelivers(w: World, wire: seq<Signal>, sent: Sent, store: Store)
    ensures var c := Opening(wire, sent, store);
            Delivered(w, sent, Run(w, c).sent, Made(Rendering(w), Transcript(w, c)))
  {
    var c, hear := Opening(wire, sent, store), Collecting(Rendering(w));
    var delivered := (c': Conn, bodies: seq<Text>) => Delivered(w, sent, c'.sent, bodies);
    assert sent.bytes + [] == sent.bytes;
    forall c', bodies ensures KeepsAgreement(Machine(w), hear, delivered, c', bodies) {
      if delivered(c', bodies) {
        MachineDelivers(w, sent, c', bodies);
      }
    }
    StepsAgree(Machine(w), hear, delivered, c, [], Enough(c));
    ReplayCollects(Rendering(w), [], Transcript(w, c));
    ConversationEnds(w, c);
    assert [] + Made(Rendering(w), Transcript(w, c)) == Made(Rendering(w), Transcript(w, c));
  }

  /**
   When no write fails and every reply of the conversation fits, what the client receives is exactly
   the encoded replies, so reading it to the end gives back every reply, in order.
   */
  lemma ClientReadsReplies(w: World, wire: seq<Signal>, store: Store)
    requires Deliverable(w, Opening(wire, Sent([], 0), store))
    ensures var c := Opening(wire, Sent([], 0), store);
            ReadAll(Octets(Run(w, c).sent.bytes), w.maxFrameBytes) ==
            Conversation(Made(Rendering(w), Transcript(w, c)), Closed)
  {
    var c := Opening(wire, Sent([], 0), store);
    var bodies := Made(Rendering(w), Transcript(w, c));
    ConversationDelivers(w, wire, Sent([], 0), store);
    assert AllFit(bodies, w.maxFrameBytes) by {
      assert forall i :: 0 <= i < |bodies| ==> Fitting(w, Transcript(w, c)[i]);
    }
    assert [] + EncodeAll(bodies) == EncodeAll(bodies);
    StreamRoundTrip(bodies, w.maxFrameBytes);
  }
}

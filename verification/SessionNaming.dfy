/**
 What naming a session in a request is good for. Outside a transaction `query` and `begin` refuse a
 request that names another session than the connection's. Nothing else looks at `session_id`: not the
 other operations, and no operation inside a transaction.
 */
module SessionNaming {
  import opened Wrappers
  import opened Json
  import opened Utf8
  import opened Frame
  import opened FrameIO
  import opened Message
  import opened Catalog
  import opened Engine
  import opened Session
  import opened Automaton
  import opened Protocol
  import opened Transcripts

  /** The session that a request of this connection can mean. */
  function HeldIn(mode: Mode): Option<Session> {
    match mode
    case InSession(session) => Some(session)
    case InTransaction(session, _, _) => Some(session)
    case _ => None
  }

  function OutstandingIn(mode: Mode): set<string> {
    if mode.InTransaction? then mode.stuck else {}
  }

  /** The connection is past its handshake, and its next frame holds this request. */
  predicate Receives(w: World, c: Conn, body: Text, request: Request) {
    && (c.mode.Idle? || c.mode.InSession? || c.mode.InTransaction?)
    && FrameAt(c.wire, w.maxFrameBytes).result == Ok(body)
    && DecodeRequest(w.parse(body), OutstandingIn(c.mode)) == Ok(request)
  }

  /** The request names a session, and it is not the one the connection holds. */
  predicate NamesAnother(mode: Mode, request: Request) {
    && request.sessionId.Some?
    && (HeldIn(mode) == None || request.sessionId.value != HeldIn(mode).value.id)
  }

  /** The operations that resolve the session they are to act on. */
  predicate Resolves(operation: Operation) {
    operation.Query? || operation.Begin?
  }

  predicate RefusedAsUnknown(reply: Reply) {
    reply.Refusal? && reply.rule == UnknownSession
  }

  lemma ReceivedStep(w: World, c: Conn, body: Text, request: Request)
    requires Receives(w, c, body, request)
    ensures var c' := c.(wire := FrameAt(c.wire, w.maxFrameBytes).rest);
            Next(w, c) == if c.mode.InTransaction? then RegionRequest(w, c', c.mode, body, request)
                          else ServeStep(w, c', HeldIn(c.mode), body, request)
  {
  }

  lemma OpenRefusesOtherwise(w: World, slot: SlotState, store: Store, request: Request, version: nat)
    ensures var d := OpenSessionOf(w, slot, store, request, version);
            d.verdict.Send? && !RefusedAsUnknown(d.verdict.reply)
  {
  }

  lemma ServeRefuses(w: World, c: Conn, session: Option<Session>, body: Text, request: Request)
    ensures RefusedAsUnknown(ServeStep(w, c, session, body, request).said[0].reply) <==>
            Resolves(request.operation) && ResolveOf(session, request.sessionId).Err?
  {
    match request.operation
    case OpenSession =>
      OpenRefusesOtherwise(w, SlotState(session, c.next), c.store, request, c.version);
    case Query =>
      if ResolveOf(session, request.sessionId).Ok? && request.statement.Some? {
        OneRunReply(w, c.store, session.value.path, request.statement.value, c.version, request.requestId);
      }
    case _ =>
  }

  lemma RegionRefusesNothing(w: World, c: Conn, m: Mode, body: Text, request: Request)
    requires m.InTransaction?
    ensures !RegionRequest(w, c, m, body, request).said[0].reply.Refusal?
  {
  }

  /**
   A request that names another session is refused for it exactly when it arrives outside a transaction
   and is a `query` or a `begin`.
   */
  lemma ForeignSessionRefusedExactly(w: World, c: Conn, body: Text, request: Request)
    requires Receives(w, c, body, request) && NamesAnother(c.mode, request)
    ensures |Next(w, c).said| == 1
    ensures RefusedAsUnknown(Next(w, c).said[0].reply) <==>
            !c.mode.InTransaction? && Resolves(request.operation)
  {
    ReceivedStep(w, c, body, request);
    var c' := c.(wire := FrameAt(c.wire, w.maxFrameBytes).rest);
    if c.mode.InTransaction? {
      RegionRefusesNothing(w, c', c.mode, body, request);
    } else {
      ServeRefuses(w, c', HeldIn(c.mode), body, request);
    }
  }

  /** A request that names its own session, or none, is never refused for it while one is open. */
  lemma OwnSessionNeverRefused(w: World, c: Conn, body: Text, request: Request)
    requires Receives(w, c, body, request) && HeldIn(c.mode).Some? && !NamesAnother(c.mode, request)
    ensures |Next(w, c).said| == 1 && !RefusedAsUnknown(Next(w, c).said[0].reply)
  {
    ReceivedStep(w, c, body, request);
    var c' := c.(wire := FrameAt(c.wire, w.maxFrameBytes).rest);
    if c.mode.InTransaction? {
      RegionRefusesNothing(w, c', c.mode, body, request);
    } else {
      ServeRefuses(w, c', HeldIn(c.mode), body, request);
    }
  }

  // ---------------------------------------------------------------------------------------------
  // Where it is not looked at, it makes no difference

  function Unnamed(request: Request): Request {
    request.(sessionId := None)
  }

  /** The same reply, to the same effect. */
  predicate SameAnswer(some: Move, other: Move)
    requires |some.said| == 1 && |other.said| == 1
  {
    && some.after == other.after && some.said[0].reply == other.said[0].reply
    && some.said[0].overlay == other.said[0].overlay && some.said[0].target == other.said[0].target
  }

  lemma DispatchIgnoresName(w: World, slot: SlotState, store: Store, request: Request, version: nat)
    requires !Resolves(request.operation)
    ensures DispatchOf(w, slot, store, request, version) == DispatchOf(w, slot, store, Unnamed(request), version)
  {
  }

  lemma ServeIgnoresName(w: World, c: Conn, session: Option<Session>, body: Text, request: Request)
    requires !Resolves(request.operation)
    ensures SameAnswer(ServeStep(w, c, session, body, request), ServeStep(w, c, session, body, Unnamed(request)))
  {
    DispatchIgnoresName(w, SlotState(session, c.next), c.store, request, c.version);
  }

  lemma StatementIgnoresName(w: World, c: Conn, m: Mode, body: Text, request: Request, statement: string)
    requires m.InTransaction?
    ensures SameAnswer(StatementStep(w, c, m, body, request, statement),
                       StatementStep(w, c, m, body, Unnamed(request), statement))
  {
  }

  /** Inside a transaction a request does what it would do if it named no session at all. */
  lemma RegionIgnoresName(w: World, c: Conn, m: Mode, body: Text, request: Request)
    requires m.InTransaction?
    ensures SameAnswer(RegionRequest(w, c, m, body, request), RegionRequest(w, c, m, body, Unnamed(request)))
  {
    match request.operation
    case Query =>
      if request.statement.Some? {
        StatementIgnoresName(w, c, m, body, request, request.statement.value);
      }
    case _ =>
  }
}

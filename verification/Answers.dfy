/**
 The protocol's answers, request by request: what a request is told and what it leaves behind, by the
 mode the connection is in, what the catalog holds and what the Engine does. None of it is said in terms
 of the steps that compute the answers; those are proved to give exactly these. Then what follows for
 whole conversations: what a reply may say after a given transcript, in which version, what publishes,
 and what becomes of a name that the catalog holds.
 */
module Answers {
  import opened Wrappers
  import opened Json
  import opened Utf8
  import opened Frame
  import opened FrameIO
  import opened Message
  import opened Catalog
  import CatalogTheorems
  import opened Engine
  import opened Session
  import opened Automaton
  import opened Protocol
  import opened Transcripts
  import Replies
  import opened SessionNaming

  // ---------------------------------------------------------------------------------------------
  // What a statement is told

  /** A result within the ceiling is reported whole; one above it is not reported at all. */
  predicate Reports(w: World, reply: Reply, version: nat, id: string, rows: seq<Row>, writes: Option<Overlay>) {
    if |rows| > w.maxResultRows then reply == RowLimit(version, id)
    else
      && reply.Accepted? && reply.payload.Envelope?
      && reply == Accepted(version, id, Envelope(rows, reply.payload.generation, writes))
  }

  /**
   A statement outside a transaction: the Engine's own code for what it will not parse or run; an error
   where it will not begin or commit; and otherwise every row it produced, with what it wrote.
   */
  ghost predicate StatementTold(w: World, tick: nat, statement: string, version: nat, id: string, reply: Reply) {
    var ran := w.oracle.run(tick + 1, [], statement);
    var runs := w.oracle.cypher(statement) == None && w.oracle.begin(tick).MayBegin?;
    var refused := ran.overlay != [] && w.oracle.commit(tick + 2).MayNotCommit?;
    && (w.oracle.cypher(statement).Some? ==> reply == Diagnostic(version, id, w.oracle.cypher(statement).value))
    && (w.oracle.cypher(statement) == None && !runs ==> reply == Trouble(version, id, BeginFailed))
    && (runs && ran.result.Failure? ==> reply == Diagnostic(version, id, ran.result.code))
    && (runs && ran.result.Rows? && refused ==> reply == Trouble(version, id, CommitRefused))
    && (runs && ran.result.Rows? && !refused ==>
          Reports(w, reply, version, id, ran.result.rows, if ran.overlay == [] then None else Some(ran.overlay)))
  }

  lemma OneRunTells(w: World, store: Store, path: string, statement: string, version: nat, id: string)
    ensures StatementTold(w, store.tick, statement, version, id,
                          RunOneOf(w, store, path, statement, version, id).reply)
  {
  }

  // ---------------------------------------------------------------------------------------------
  // The two tables

  /** The connection goes on in this mode, unless the reply could not be sent and that was its end. */
  predicate GoesOn(w: World, c: Conn, s: Move, reply: Reply, mode: Mode) {
    || s.after.mode == mode
    || (s.after.mode == Finished(TransportFailed) && Saying(w, c.sent, reply).result.Err?)
  }

  /** The step says this, leaves the store so, and goes on in this mode. */
  predicate Says(w: World, c: Conn, s: Move, reply: Reply, store: Store, mode: Mode) {
    && |s.said| == 1 && s.said[0].reply == reply
    && s.after.store == store && s.after.next == c.next && s.after.version == c.version
    && GoesOn(w, c, s, reply, mode)
  }

  /** The session a request is for cannot be told: there is none, or the request means another. */
  predicate Unresolved(c: Conn, request: Request) {
    HeldIn(c.mode) == None || NamesAnother(c.mode, request)
  }

  /** The session is held, at the path the catalog gives for the name, and its identifier is used up. */
  predicate Opened(w: World, c: Conn, s: Move, id: string, session: Session) {
    var reply := Accepted(c.version, id, SessionOpened(session.id));
    && |s.said| == 1 && s.said[0].reply == reply && s.said[0].target == Some(session.path)
    && s.after.store == Ticked(w.oracle, Ticked(w.oracle, c.store))
    && s.after.next == (c.next + 1) % U64_LIMIT && s.after.version == c.version
    && GoesOn(w, c, s, reply, InSession(session))
  }

  /** A name to open, now that the catalog is loaded. */
  predicate NameAnswered(w: World, c: Conn, id: string, name: string, catalog: Contents, s: Move) {
    var loaded := Ticked(w.oracle, c.store);
    if c.mode.InSession? then
      Says(w, c, s, Refusal(c.version, Some(id), SecondSessionOnOneConnection), loaded, c.mode)
    else if name !in catalog.databases then
      Says(w, c, s, Trouble(c.version, id, NotInCatalog), loaded, c.mode)
    else if !w.oracle.open(loaded.tick) then
      Says(w, c, s, Trouble(c.version, id, DatabaseUnreachable), Ticked(w.oracle, loaded), c.mode)
    else
      Opened(w, c, s, id, Session(SessionId(c.next), name, catalog.databases[name].path))
  }

  ghost predicate OpenAnswered(w: World, c: Conn, request: Request, s: Move) {
    var id := request.requestId;
    if request.database == None then Says(w, c, s, Trouble(c.version, id, NoDatabaseNamed), c.store, c.mode)
    else
      match LoadOf(w.oracle.files(c.store.tick))
      case Err(_) => Says(w, c, s, Trouble(c.version, id, CatalogUnusable), Ticked(w.oracle, c.store), c.mode)
      case Ok(catalog) => NameAnswered(w, c, id, request.database.value, catalog, s)
  }

  ghost predicate QueryAnswered(w: World, c: Conn, request: Request, s: Move) {
    var id := request.requestId;
    if Unresolved(c, request) then Says(w, c, s, Refusal(c.version, Some(id), UnknownSession), c.store, c.mode)
    else if request.statement == None then Says(w, c, s, Trouble(c.version, id, NoStatement), c.store, c.mode)
    else
      && |s.said| == 1 && StatementTold(w, c.store.tick, request.statement.value, c.version, id, s.said[0].reply)
      && Says(w, c, s, s.said[0].reply, s.after.store, c.mode)
  }

  ghost predicate BeginAnswered(w: World, c: Conn, request: Request, s: Move) {
    var id := request.requestId;
    if Unresolved(c, request) then Says(w, c, s, Refusal(c.version, Some(id), UnknownSession), c.store, c.mode)
    else
      var session := HeldIn(c.mode).value;
      var begun := BeginOf(w.oracle, c.store, session.path);
      match begun.txn
      case None => Says(w, c, s, Trouble(c.version, id, BeginFailed), begun.store, c.mode) && s.after.mode == c.mode
      case Some(txn) =>
        Says(w, c, s, Accepted(c.version, id, Began(txn.base)), begun.store,
             InTransaction(session, Txn(session.path, txn.base, []), {}))
  }

  /** Outside a transaction there is nothing to finish; all else depends on whether a session is held. */
  ghost predicate AnsweredOutside(w: World, c: Conn, request: Request, s: Move) {
    var id := request.requestId;
    match request.operation
    case OpenSession => OpenAnswered(w, c, request, s)
    case CloseSession => Says(w, c, s, Accepted(c.version, id, SessionClosed(c.mode.InSession?)), c.store, Idle)
    case Query => QueryAnswered(w, c, request, s)
    case Begin => BeginAnswered(w, c, request, s)
    case Commit => Says(w, c, s, Trouble(c.version, id, NothingToFinish), c.store, c.mode)
    case Rollback => Says(w, c, s, Trouble(c.version, id, NothingToFinish), c.store, c.mode)
    case Status =>
      var sessions := if c.mode.InSession? then 1 else 0;
      Says(w, c, s, Accepted(c.version, id, StatusReport(w.endpoint, sessions, c.version)), c.store, c.mode)
    case Shutdown =>
      && |s.said| == 1 && s.said[0].reply == Accepted(c.version, id, Stopping)
      && s.after.store == c.store && s.after.mode == Finished(ShutdownRequested)
  }

  ghost predicate StatementAnsweredInside(w: World, c: Conn, request: Request, s: Move)
    requires c.mode.InTransaction? && request.statement.Some?
  {
    var id, statement, txn := request.requestId, request.statement.value, c.mode.txn;
    match w.oracle.cypher(statement)
    case Some(code) => Says(w, c, s, Diagnostic(c.version, id, code), c.store, c.mode)
    case None =>
      var ran := w.oracle.run(c.store.tick, txn.overlay, statement);
      && |s.said| == 1 && s.said[0].overlay == Some(ran.overlay)
      && Says(w, c, s, s.said[0].reply, Ticked(w.oracle, c.store), c.mode.(txn := txn.(overlay := ran.overlay)))
      && match ran.result
         case Failure(code) => s.said[0].reply == Diagnostic(c.version, id, code)
         case Rows(rows) =>
           && Reports(w, s.said[0].reply, c.version, id, rows, Some(ran.overlay))
           && (s.said[0].reply.Accepted? ==> s.said[0].reply.payload.generation == txn.base)
  }

  /**
   Inside a transaction only `commit` and `rollback` end it, and whether or not their reply can be sent;
   nothing changes the session, and nothing but the commit that the Engine accepts publishes.
   */
  ghost predicate AnsweredInside(w: World, c: Conn, request: Request, s: Move)
    requires c.mode.InTransaction?
  {
    var id, base := request.requestId, c.mode.txn.base;
    match request.operation
    case Commit =>
      var committed := CommitOf(w.oracle, c.store, c.mode.txn);
      && Says(w, c, s, if committed.generation.Some? then Accepted(c.version, id, Committed(committed.generation.value))
                       else Trouble(c.version, id, CommitRefused), committed.store, InSession(c.mode.session))
      && s.after.mode == InSession(c.mode.session)
    case Rollback =>
      && Says(w, c, s, Accepted(c.version, id, RolledBack), c.store, InSession(c.mode.session))
      && s.after.mode == InSession(c.mode.session)
    case Query =>
      if request.statement.Some? then StatementAnsweredInside(w, c, request, s)
      else
        var held := c.mode.(stuck := c.mode.stuck + {id});
        Says(w, c, s, Trouble(c.version, id, NoStatement), c.store, held) && s.after.mode == held
    case Status => Says(w, c, s, Accepted(c.version, id, TransactionStatus(base)), c.store, c.mode)
    case Begin => Says(w, c, s, Trouble(c.version, id, AlreadyInTransaction), c.store, c.mode)
    case OpenSession => Says(w, c, s, Trouble(c.version, id, FinishFirst), c.store, c.mode)
    case CloseSession => Says(w, c, s, Trouble(c.version, id, FinishFirst), c.store, c.mode)
    case Shutdown => Says(w, c, s, Trouble(c.version, id, FinishFirst), c.store, c.mode)
  }

  /** What the table for its mode says of a request is what the step does. */
  ghost predicate Answered(w: World, c: Conn, request: Request, s: Move) {
    if c.mode.InTransaction? then AnsweredInside(w, c, request, s) else AnsweredOutside(w, c, request, s)
  }

  // ---------------------------------------------------------------------------------------------
  // Every request gets its answer

  lemma LoadedThenNamed(w: World, slot: SlotState, store: Store, request: Request, version: nat, catalog: Contents)
    requires request.database.Some? && LoadOf(w.oracle.files(store.tick)) == Ok(catalog)
    ensures OpenSessionOf(w, slot, store, request, version) ==
            OpenNamed(w, slot, Ticked(w.oracle, store), request.database.value, request.requestId, version, catalog)
  {
  }

  /** What the catalog and the Engine make of a name is what the table says, in whatever step it is told. */
  lemma NameIsAnswered(w: World, c: Conn, wire: seq<Signal>, x: Exchange, id: string, name: string, catalog: Contents)
    requires c.mode.Idle? || c.mode.InSession?
    requires var d := OpenNamed(w, SlotState(HeldIn(c.mode), c.next), Ticked(w.oracle, c.store),
                                name, id, c.version, catalog);
             d.verdict.Send? && x.reply == d.verdict.reply && x.target == d.target
    ensures var d := OpenNamed(w, SlotState(HeldIn(c.mode), c.next), Ticked(w.oracle, c.store),
                               name, id, c.version, catalog);
            NameAnswered(w, c, id, name, catalog,
              Answer(w, c.(wire := wire, next := d.slot.next, store := d.store), x,
                     Resting(d.slot.session), Finished(TransportFailed)))
  {
  }

  lemma UnloadedIsAnswered(w: World, c: Conn, wire: seq<Signal>, body: Text, request: Request)
    requires (c.mode.Idle? || c.mode.InSession?) && request.operation.OpenSession?
    requires request.database == None || LoadOf(w.oracle.files(c.store.tick)).Err?
    ensures OpenAnswered(w, c, request, ServeStep(w, c.(wire := wire), HeldIn(c.mode), body, request))
  {
    ServesOpen(w, c.(wire := wire), HeldIn(c.mode), body, request);
  }

  lemma OpenIsAnswered(w: World, c: Conn, wire: seq<Signal>, body: Text, request: Request)
    requires (c.mode.Idle? || c.mode.InSession?) && request.operation.OpenSession?
    ensures OpenAnswered(w, c, request, ServeStep(w, c.(wire := wire), HeldIn(c.mode), body, request))
  {
    if request.database == None || LoadOf(w.oracle.files(c.store.tick)).Err? {
      UnloadedIsAnswered(w, c, wire, body, request);
    } else {
      var catalog := LoadOf(w.oracle.files(c.store.tick)).value;
      LoadedThenNamed(w, SlotState(HeldIn(c.mode), c.next), c.store, request, c.version, catalog);
      ServesOpen(w, c.(wire := wire), HeldIn(c.mode), body, request);
      var s := ServeStep(w, c.(wire := wire), HeldIn(c.mode), body, request);
      NameIsAnswered(w, c, wire, s.said[0], request.requestId, request.database.value, catalog);
    }
  }

  lemma QueryIsAnswered(w: World, c: Conn, wire: seq<Signal>, body: Text, request: Request)
    requires (c.mode.Idle? || c.mode.InSession?) && request.operation.Query?
    ensures QueryAnswered(w, c, request, ServeStep(w, c.(wire := wire), HeldIn(c.mode), body, request))
  {
    if !Unresolved(c, request) && request.statement.Some? {
      var session := HeldIn(c.mode).value;
      ServesQuery(w, c.(wire := wire), session, body, request);
      OneRunTells(w, c.store, session.path, request.statement.value, c.version, request.requestId);
    }
  }

  lemma BeginIsAnswered(w: World, c: Conn, wire: seq<Signal>, body: Text, request: Request)
    requires (c.mode.Idle? || c.mode.InSession?) && request.operation.Begin?
    ensures BeginAnswered(w, c, request, ServeStep(w, c.(wire := wire), HeldIn(c.mode), body, request))
  {
  }

  lemma OutsideIsAnswered(w: World, c: Conn, wire: seq<Signal>, body: Text, request: Request)
    requires c.mode.Idle? || c.mode.InSession?
    ensures AnsweredOutside(w, c, request, ServeStep(w, c.(wire := wire), HeldIn(c.mode), body, request))
  {
    match request.operation
    case OpenSession => OpenIsAnswered(w, c, wire, body, request);
    case Query => QueryIsAnswered(w, c, wire, body, request);
    case Begin => BeginIsAnswered(w, c, wire, body, request);
    case _ =>
  }

  lemma StatementIsAnswered(w: World, c: Conn, wire: seq<Signal>, body: Text, request: Request)
    requires c.mode.InTransaction? && request.statement.Some?
    ensures StatementAnsweredInside(w, c, request,
              StatementStep(w, c.(wire := wire), c.mode, body, request, request.statement.value))
  {
  }

  lemma InsideIsAnswered(w: World, c: Conn, wire: seq<Signal>, body: Text, request: Request)
    requires c.mode.InTransaction?
    ensures AnsweredInside(w, c, request, RegionRequest(w, c.(wire := wire), c.mode, body, request))
  {
    match request.operation
    case Query =>
      if request.statement.Some? {
        StatementIsAnswered(w, c, wire, body, request);
      }
    case _ =>
  }

  /** Every request that is received, in every state of every connection, is answered as its table says. */
  lemma RequestsAreAnswered(w: World, c: Conn, body: Text, request: Request)
    requires Receives(w, c, body, request)
    ensures Answered(w, c, request, Next(w, c))
  {
    var wire := FrameAt(c.wire, w.maxFrameBytes).rest;
    ReceivedStep(w, c, body, request);
    if c.mode.InTransaction? {
      InsideIsAnswered(w, c, wire, body, request);
    } else {
      OutsideIsAnswered(w, c, wire, body, request);
    }
  }

  // ---------------------------------------------------------------------------------------------
  // Whole conversations

  /** What a step says of no request: of a greeting, or of a frame that none can be decoded from. */
  lemma UnreceivedHasNoRequest(w: World, c: Conn)
    requires !c.mode.Finished?
    requires var read := FrameAt(c.wire, w.maxFrameBytes).result;
             c.mode.Greeting? || (read.Ok? ==> DecodeRequest(w.parse(read.value), OutstandingIn(c.mode)).Err?)
    ensures Next(w, c).said != [] ==> Next(w, c).said[0].request == None
  {
  }

  lemma ReceivedIsAnswered(w: World, c: Conn, body: Text, request: Request)
    requires Receives(w, c, body, request)
    ensures var s := Next(w, c);
            |s.said| == 1 && s.said[0].body == Some(body) && s.said[0].request == Some(request)
  {
    var c' := c.(wire := FrameAt(c.wire, w.maxFrameBytes).rest);
    ReceivedStep(w, c, body, request);
    if c.mode.InTransaction? {
      Replies.RegionAnswersRequest(w, c', c.mode, body, request);
    } else {
      Replies.ServeAnswersRequest(w, c', HeldIn(c.mode), body, request);
    }
  }

  lemma AnswersWhatItReceives(w: World, c: Conn)
    requires !c.mode.Finished?
    ensures Next(w, c).said != [] && Next(w, c).said[0].request.Some? ==>
              var x := Next(w, c).said[0];
              x.body.Some? && Receives(w, c, x.body.value, x.request.value)
  {
    var read := FrameAt(c.wire, w.maxFrameBytes).result;
    if c.mode.Greeting? || (read.Ok? ==> DecodeRequest(w.parse(read.value), OutstandingIn(c.mode)).Err?) {
      UnreceivedHasNoRequest(w, c);
    } else {
      ReceivedIsAnswered(w, c, read.value, DecodeRequest(w.parse(read.value), OutstandingIn(c.mode)).value);
    }
  }

  /** Every exchange of a conversation is said by one step of it, from the state its transcript determines. */
  lemma SaidByAStep(w: World, wire: seq<Signal>, sent: Sent, store: Store, i: nat) returns (c: Conn)
    requires i < |Transcript(w, Opening(wire, sent, store))|
    ensures var xs := Transcript(w, Opening(wire, sent, store));
            !c.mode.Finished? && Next(w, c).said == [xs[i]] && Agrees(c, ViewOf(xs[..i]), store)
  {
    var start := Opening(wire, sent, store);
    forall c' ensures |Machine(w)(c').said| <= 1 {
    }
    var n := SaidAt(Machine(w), start, Enough(start), i);
    TranscriptDeterminesState(w, wire, sent, store, n);
    c := After(Machine(w), start, n);
  }

  /**
   Every reply to a request, in every conversation, is the one its table gives: for the mode the
   transcript before it determines, with the session and the transaction that the transcript says are
   open, and beside a store that holds exactly what the transcript says was published.
   */
  lemma ConversationIsAnswered(w: World, wire: seq<Signal>, sent: Sent, store: Store, i: nat) returns (c: Conn)
    requires i < |Transcript(w, Opening(wire, sent, store))|
    requires Transcript(w, Opening(wire, sent, store))[i].request.Some?
    ensures var xs := Transcript(w, Opening(wire, sent, store));
            && !c.mode.Finished? && Agrees(c, ViewOf(xs[..i]), store)
            && Next(w, c).said == [xs[i]] && Answered(w, c, xs[i].request.value, Next(w, c))
  {
    c := SaidByAStep(w, wire, sent, store, i);
    var x := Transcript(w, Opening(wire, sent, store))[i];
    AnswersWhatItReceives(w, c);
    RequestsAreAnswered(w, c, x.body.value, x.request.value);
  }

  predicate Troubles(reply: Reply, why: Why) {
    reply.Trouble? && reply.why == why
  }

  predicate Grants(reply: Reply, payload: Payload) {
    reply.Accepted? && reply.payload == payload
  }

  /** What may be said to a request where no transaction is open, by what session the transcript says is. */
  predicate BefitsNoTransaction(w: World, session: Option<Session>, request: Request, reply: Reply) {
    var unknown := session == None || (request.sessionId.Some? && request.sessionId.value != session.value.id);
    match request.operation
    case Commit => Troubles(reply, NothingToFinish)
    case Rollback => Troubles(reply, NothingToFinish)
    case Status =>
      reply.Accepted? && reply.payload == StatusReport(w.endpoint, if session == None then 0 else 1, reply.version)
    case CloseSession => Grants(reply, SessionClosed(session.Some?))
    case Shutdown => Grants(reply, Stopping)
    case OpenSession => reply.Accepted? ==> reply.payload.SessionOpened? && session == None
    case Begin =>
      if unknown then RefusedAsUnknown(reply)
      else (reply.Accepted? && reply.payload.Began?) || Troubles(reply, BeginFailed)
    case Query =>
      if unknown then RefusedAsUnknown(reply)
      else if request.statement == None then Troubles(reply, NoStatement)
      else reply.Accepted? ==> reply.payload.Envelope?
  }

  /** And where one is: its base is stated, by `status` and beside every result, until it is finished. */
  predicate BefitsTransaction(base: nat, request: Request, reply: Reply) {
    match request.operation
    case Commit => (reply.Accepted? && reply.payload.Committed?) || Troubles(reply, CommitRefused)
    case Rollback => Grants(reply, RolledBack)
    case Status => Grants(reply, TransactionStatus(base))
    case Begin => Troubles(reply, AlreadyInTransaction)
    case Query =>
      if request.statement == None then Troubles(reply, NoStatement)
      else reply.Accepted? ==> reply.payload.Envelope? && reply.payload.generation == base
    case _ => Troubles(reply, FinishFirst)
  }

  predicate Befits(w: World, v: View, request: Request, reply: Reply) {
    if v.txn.Some? then BefitsTransaction(v.txn.value.base, request, reply)
    else BefitsNoTransaction(w, v.session, request, reply)
  }

  lemma OutsideBefits(w: World, c: Conn, request: Request, s: Move)
    requires (c.mode.Idle? || c.mode.InSession?) && AnsweredOutside(w, c, request, s)
    ensures |s.said| == 1 && BefitsNoTransaction(w, HeldIn(c.mode), request, s.said[0].reply)
  {
  }

  lemma InsideBefits(w: World, c: Conn, request: Request, s: Move)
    requires c.mode.InTransaction? && AnsweredInside(w, c, request, s)
    ensures |s.said| == 1 && BefitsTransaction(c.mode.txn.base, request, s.said[0].reply)
  {
  }

  /** No reply says anything of a session or a transaction that the transcript before it does not bear out. */
  lemma RepliesBefitTranscript(w: World, wire: seq<Signal>, sent: Sent, store: Store, i: nat)
    requires i < |Transcript(w, Opening(wire, sent, store))|
    ensures var xs := Transcript(w, Opening(wire, sent, store));
            && (xs[i].request.Some? ==> Befits(w, ViewOf(xs[..i]), xs[i].request.value, xs[i].reply))
            && (xs[i].request == None ==> !xs[i].reply.Accepted? && !xs[i].reply.Trouble?)
  {
    var x := Transcript(w, Opening(wire, sent, store))[i];
    if x.request.Some? {
      var c := ConversationIsAnswered(w, wire, sent, store, i);
      if c.mode.InTransaction? {
        InsideBefits(w, c, x.request.value, Next(w, c));
      } else {
        OutsideBefits(w, c, x.request.value, Next(w, c));
      }
    } else {
      Replies.RepliesEchoRequests(w, wire, sent, store, i);
    }
  }

  // ---------------------------------------------------------------------------------------------
  // The version

  /** The version a reply states; the refusal of a handshake states the ones that could have been agreed. */
  function VersionOf(reply: Reply): Option<nat> {
    match reply
    case Welcome(version, _) => Some(version)
    case Unwelcome(_) => None
    case Accepted(version, _, _) => Some(version)
    case Refusal(version, _, _) => Some(version)
    case Trouble(version, _, _) => Some(version)
    case Diagnostic(version, _, _) => Some(version)
    case RowLimit(version, _) => Some(version)
  }

  function Agreed(version: Option<nat>, x: Exchange): Option<nat> {
    if x.reply.Welcome? then Some(x.reply.version) else version
  }

  /** First a version is agreed on, if it is, and every reply after that states it. */
  predicate Speaks(version: Option<nat>, x: Exchange) {
    if version == None then x.reply.Unwelcome? || (x.reply.Welcome? && x.reply.version in Message.SUPPORTED_VERSIONS)
    else VersionOf(x.reply) == version && !x.reply.Welcome?
  }

  predicate VersionAgrees(c: Conn, version: Option<nat>) {
    c.mode.Finished? || version == if c.mode.Greeting? then None else Some(c.version)
  }

  /** A step of a connection that has agreed on a version states it, and keeps it. */
  predicate Stamped(c: Conn, s: Move) {
    && (forall x :: x in s.said ==> VersionOf(x.reply) == Some(c.version) && !x.reply.Welcome?)
    && (s.after.mode.Finished? || (s.after.version == c.version && !s.after.mode.Greeting?))
  }

  lemma OutsideStamps(w: World, c: Conn, request: Request, s: Move)
    requires (c.mode.Idle? || c.mode.InSession?) && AnsweredOutside(w, c, request, s)
    ensures Stamped(c, s)
  {
  }

  lemma InsideStamps(w: World, c: Conn, request: Request, s: Move)
    requires c.mode.InTransaction? && AnsweredInside(w, c, request, s)
    ensures Stamped(c, s)
  {
  }

  lemma ReceivedStamps(w: World, c: Conn, body: Text, request: Request)
    requires Receives(w, c, body, request)
    ensures Stamped(c, Next(w, c))
  {
    RequestsAreAnswered(w, c, body, request);
    if c.mode.InTransaction? {
      InsideStamps(w, c, request, Next(w, c));
    } else {
      OutsideStamps(w, c, request, Next(w, c));
    }
  }

  /** Nothing was received: a frame that cannot be read, or a message that cannot be decoded. */
  lemma UnreceivedStamps(w: World, c: Conn)
    requires c.mode.Idle? || c.mode.InSession? || c.mode.InTransaction?
    requires var read := FrameAt(c.wire, w.maxFrameBytes).result;
             read.Ok? ==> DecodeRequest(w.parse(read.value), OutstandingIn(c.mode)).Err?
    ensures Stamped(c, Next(w, c))
  {
  }

  lemma NextStamps(w: World, c: Conn)
    requires c.mode.Idle? || c.mode.InSession? || c.mode.InTransaction?
    ensures Stamped(c, Next(w, c))
  {
    var read := FrameAt(c.wire, w.maxFrameBytes).result;
    if read.Ok? && DecodeRequest(w.parse(read.value), OutstandingIn(c.mode)).Ok? {
      ReceivedStamps(w, c, read.value, DecodeRequest(w.parse(read.value), OutstandingIn(c.mode)).value);
    } else {
      UnreceivedStamps(w, c);
    }
  }

  lemma GreetingSpeaks(w: World, c: Conn)
    requires c.mode.Greeting?
    ensures var s := Next(w, c);
            && |s.said| <= 1 && (forall x :: x in s.said ==> Speaks(None, x))
            && VersionAgrees(s.after, if s.said == [] then None else Agreed(None, s.said[0]))
  {
  }

  lemma MachineSpeaks(w: World, c: Conn, version: Option<nat>)
    requires VersionAgrees(c, version)
    ensures var s := Machine(w)(c);
            && VersionAgrees(s.after, Replay(Agreed, version, s.said))
            && (s.said != [] ==> |s.said| == 1 && Speaks(version, s.said[0]))
  {
    var said := Machine(w)(c).said;
    if said != [] {
      assert said[1..] == [];
      assert Replay(Agreed, version, said) == Agreed(version, said[0]);
    }
    if c.mode.Greeting? {
      GreetingSpeaks(w, c);
    } else if !c.mode.Finished? {
      NextStamps(w, c);
    }
  }

  /** Every reply of every conversation states the version that its welcome agreed on. */
  lemma RepliesSpeakOneVersion(w: World, wire: seq<Signal>, sent: Sent, store: Store, i: nat)
    requires i < |Transcript(w, Opening(wire, sent, store))|
    ensures var xs := Transcript(w, Opening(wire, sent, store));
            Speaks(Replay(Agreed, None, xs[..i]), xs[i])
  {
    var c := Opening(wire, sent, store);
    forall c', v ensures KeepsAgreement(Machine(w), Agreed, VersionAgrees, c', v) {
      if VersionAgrees(c', v) {
        MachineSpeaks(w, c', v);
      }
    }
    forall c', v ensures SaysFitly(Machine(w), Agreed, VersionAgrees, Speaks, c', v) {
      if VersionAgrees(c', v) {
        MachineSpeaks(w, c', v);
        assert Machine(w)(c').said[..0] == [];
      }
    }
    StepsFit(Machine(w), Agreed, VersionAgrees, Speaks, c, None, Enough(c), i);
  }

  // ---------------------------------------------------------------------------------------------
  // Commits

  /**
   A commit is reported exactly where a transaction is open, the request is a `commit` and the Engine
   accepts it; with the generation it was accepted at, under which all that the transaction held is
   now published as this connection's own.
   */
  lemma CommittedExactly(w: World, c: Conn, body: Text, request: Request, generation: nat)
    requires Receives(w, c, body, request)
    ensures var s := Next(w, c);
            |s.said| == 1 &&
            (Grants(s.said[0].reply, Committed(generation)) <==>
               && c.mode.InTransaction? && request.operation.Commit?
               && CommitOf(w.oracle, c.store, c.mode.txn).generation == Some(generation))
    ensures var s := Next(w, c);
            Grants(s.said[0].reply, Committed(generation)) && c.mode.txn.overlay != [] ==>
              Own(s.after.store.journal) == Own(c.store.journal)
                + [Publication(c.mode.txn.path, generation, c.mode.txn.overlay, true)]
  {
    RequestsAreAnswered(w, c, body, request);
    if c.mode.InTransaction? {
      OwnCommit(w.oracle, c.store, c.mode.txn);
      InsideBefits(w, c, request, Next(w, c));
    } else {
      OutsideBefits(w, c, request, Next(w, c));
    }
  }

  lemma OnlyCommitAdds(w: World, c: Conn, request: Request, s: Move)
    requires c.mode.InTransaction? && AnsweredInside(w, c, request, s) && !request.operation.Commit?
    ensures Own(s.after.store.journal) == Own(c.store.journal)
  {
    OwnTicked(w.oracle, c.store);
  }

  /**
   Inside a transaction a client publishes by the word `commit` and no other: whatever a frame says, if
   this connection's journal grows by it then the frame states `commit`, and when it states `commit` and
   is accepted, the client is told which came of it.
   */
  lemma PublishedByTheWord(w: World, c: Conn, body: Text)
    requires c.mode.InTransaction? && FrameAt(c.wire, w.maxFrameBytes).result == Ok(body)
    ensures Own(Next(w, c).after.store.journal) != Own(c.store.journal) ==>
              StatedOperation(w.parse(body)) == Some("commit")
    ensures DecodeRequest(w.parse(body), c.mode.stuck).Ok? && StatedOperation(w.parse(body)) == Some("commit") ==>
              var s, committed := Next(w, c), CommitOf(w.oracle, c.store, c.mode.txn);
              && |s.said| == 1 && s.after.store == committed.store && s.after.mode == InSession(c.mode.session)
              && if committed.generation.Some? then Grants(s.said[0].reply, Committed(committed.generation.value))
                 else Troubles(s.said[0].reply, CommitRefused)
    ensures DecodeRequest(w.parse(body), c.mode.stuck).Ok? && StatedOperation(w.parse(body)) == Some("rollback") ==>
              var s := Next(w, c);
              && |s.said| == 1 && s.after.store == c.store && s.after.mode == InSession(c.mode.session)
              && Grants(s.said[0].reply, RolledBack)
  {
    if DecodeRequest(w.parse(body), c.mode.stuck).Ok? {
      var request := DecodeRequest(w.parse(body), c.mode.stuck).value;
      StatedIsAsked(w.parse(body), c.mode.stuck);
      RequestsAreAnswered(w, c, body, request);
      if !request.operation.Commit? {
        OnlyCommitAdds(w, c, request, Next(w, c));
      }
    }
  }

  // ---------------------------------------------------------------------------------------------
  // Names

  /** A client may name anything the catalog holds: the request it sends decodes as it was meant. */
  lemma RegisteredNameDecodes(file: CatalogFile, name: string, request: Request, extra: Members)
    requires LoadOf(file).Ok? && name in LoadOf(file).value.databases
    requires request.database == Some(name)
    requires request.version in Message.SUPPORTED_VERSIONS && request.requestId != ""
    ensures DecodeRequest(Some(EncodeRequest(request, extra)), {}) == Ok(request)
  {
    assert CatalogTheorems.AfterHistory(LoadOf(file).value, []) == LoadOf(file).value;
    CatalogTheorems.RegisteredNamesAreAddressable(file, [], name);
    RequestRoundTrip(request, extra, {});
  }

  /** What a request to open a name is told, when the catalog holds the name. */
  lemma HeldNameIsAnswered(w: World, c: Conn, name: string, request: Request, catalog: Contents, s: Move)
    requires OpenAnswered(w, c, request, s) && request.database == Some(name)
    requires LoadOf(w.oracle.files(c.store.tick)) == Ok(catalog)
    ensures NameAnswered(w, c, request.requestId, name, catalog, s)
  {
  }

  lemma HeldNameOpens(w: World, c: Conn, id: string, name: string, catalog: Contents, s: Move)
    requires NameAnswered(w, c, id, name, catalog, s) && name in catalog.databases && c.mode.Idle?
    requires w.oracle.open(c.store.tick + 1)
    ensures Opened(w, c, s, id, Session(SessionId(c.next), name, catalog.databases[name].path))
  {
  }

  lemma OpenRequestIsAnswered(w: World, c: Conn, body: Text, request: Request)
    requires Receives(w, c, body, request) && request.operation.OpenSession? && !c.mode.InTransaction?
    ensures OpenAnswered(w, c, request, Next(w, c))
  {
    RequestsAreAnswered(w, c, body, request);
  }

  /**
   Every registrable name is addressable, end to end: a request to open any name the catalog holds
   reaches the slot, and is answered by what the catalog and the Engine make of it. On a connection that
   has no session, where the Engine can open the database, the session is held, under the next
   identifier, at the very path the catalog gives for the name.
   */
  lemma RegisteredNameOpens(
    w: World, c: Conn, name: string, request: Request, extra: Members, body: Text, catalog: Contents)
    requires (c.mode.Idle? || c.mode.InSession?) && FrameAt(c.wire, w.maxFrameBytes).result == Ok(body)
    requires w.parse(body) == Some(EncodeRequest(request, extra))
    requires request.operation.OpenSession? && request.database == Some(name)
    requires request.version in Message.SUPPORTED_VERSIONS && request.requestId != ""
    ensures LoadOf(w.oracle.files(c.store.tick)) == Ok(catalog) && name in catalog.databases ==>
              && NameAnswered(w, c, request.requestId, name, catalog, Next(w, c))
              && (c.mode.Idle? && w.oracle.open(c.store.tick + 1) ==>
                    Opened(w, c, Next(w, c), request.requestId,
                           Session(SessionId(c.next), name, catalog.databases[name].path)))
  {
    if LoadOf(w.oracle.files(c.store.tick)) == Ok(catalog) && name in catalog.databases {
      RegisteredNameDecodes(w.oracle.files(c.store.tick), name, request, extra);
      OpenRequestIsAnswered(w, c, body, request);
      HeldNameIsAnswered(w, c, name, request, catalog, Next(w, c));
      if c.mode.Idle? && w.oracle.open(c.store.tick + 1) {
        HeldNameOpens(w, c, request.requestId, name, catalog, Next(w, c));
      }
    }
  }
}

/**
 The connection protocol of src/serve.rs as a flat automaton: one explicit mode, one step a frame.

 The program itself has no such mode. It is two nested loops over a slot and a transaction, and
 Serve.dfy proves that program to compute exactly what `Run` computes. Here is only the automaton.
 */
module Protocol {
  import opened Wrappers
  import opened Json
  import opened Utf8
  import opened Frame
  import opened FrameIO
  import opened Message
  import opened Catalog
  import opened Engine
  import opened Session
  import opened Automaton

  /** Why a request got an error that is not a protocol refusal. */
  datatype Why =
    | NoDatabaseNamed
    | CatalogUnusable
    | NotInCatalog
    | DatabaseUnreachable
    | NoStatement
    | NothingToFinish
    | BeginFailed
    | CommitRefused
    | AlreadyInTransaction
    | FinishFirst

  /** The `result` member of an `ok` reply. */
  datatype Payload =
    | SessionOpened(id: string)
    | SessionClosed(closed: bool)
    | StatusReport(endpoint: string, sessions: nat, speaking: nat)
    | Stopping
    | Began(base: nat)
    | Committed(generation: nat)
    | RolledBack
    | TransactionStatus(base: nat)
    | Envelope(rows: seq<Row>, generation: nat, writes: Option<Overlay>)

  datatype Reply =
    | Welcome(version: nat, endpoint: string)
    | Unwelcome(supported: seq<nat>)
    | Accepted(version: nat, requestId: string, payload: Payload)
    | Refusal(version: nat, about: Option<string>, rule: Rule)
    | Trouble(version: nat, requestId: string, why: Why)
    | Diagnostic(version: nat, requestId: string, code: string)
    | RowLimit(version: nat, requestId: string)

  /** The request a reply says it answers. */
  function AboutOf(reply: Reply): Option<string> {
    match reply
    case Welcome(_, _) => None
    case Unwelcome(_) => None
    case Accepted(_, id, _) => Some(id)
    case Refusal(_, about, _) => about
    case Trouble(_, id, _) => Some(id)
    case Diagnostic(_, id, _) => Some(id)
    case RowLimit(_, id) => Some(id)
  }

  datatype Ended = ClientClosed | HandshakeRefused | ShutdownRequested | TransportFailed

  /**
   Everything a connection meets and does not decide: JSON reading and printing, the Engine, the
   catalog file, write failures and the configured limits.
   */
  datatype World = World(
    parse: Text -> Option<Json>,
    render: Reply -> Text,
    oracle: Oracle,
    faults: Faults,
    endpoint: string,
    maxFrameBytes: nat,
    maxResultRows: nat
  )

  datatype Mode =
    | Greeting
    | Idle
    | InSession(session: Session)
    | InTransaction(session: Session, txn: Txn, stuck: set<string>)
    | Finished(how: Ended)

  /**
   A connection between two frames. `next` is the slot's counter, `wire` what the client has still
   to send, `sent` what has been sent to it, and `store` everything published so far.
   */
  datatype Conn = Conn(mode: Mode, version: nat, next: nat, wire: seq<Signal>, sent: Sent, store: Store)

  /**
   What one step said: the frame it answered (none for an over-long one), the request in it if it
   decoded, and the reply. `target` is the path of a session just opened, and `overlay` what the
   transaction held after the statement ran, if the Engine ran one.
   */
  datatype Exchange = Exchange(
    body: Option<Text>,
    request: Option<Request>,
    reply: Reply,
    target: Option<string>,
    overlay: Option<Overlay>
  )

  type Move = Step<Conn, Exchange>

  // ---------------------------------------------------------------------------------------------
  // One statement in its own transaction

  datatype OneRun = OneRun(store: Store, reply: Reply, overlay: Option<Overlay>)

  function EnvelopeOf(
    w: World, version: nat, id: string, rows: seq<Row>, generation: nat, writes: Option<Overlay>): Reply
  {
    if |rows| > w.maxResultRows then RowLimit(version, id)
    else Accepted(version, id, Envelope(rows, generation, writes))
  }

  /** What becomes of a statement that ran: rolled back, or committed because it changed something. */
  function SettleOne(w: World, ran: Ran, version: nat, id: string): (one: OneRun)
    ensures AboutOf(one.reply) == Some(id)
  {
    match ran.result
    case Failure(code) => OneRun(ran.store, Diagnostic(version, id, code), None)
    case Rows(rows) =>
      var writes := ran.txn.overlay;
      if writes == [] then
        OneRun(ran.store, EnvelopeOf(w, version, id, rows, ran.txn.base, None), Some([]))
      else
        var k := CommitOf(w.oracle, ran.store, ran.txn);
        match k.generation
        case None => OneRun(k.store, Trouble(version, id, CommitRefused), None)
        case Some(generation) =>
          OneRun(k.store, EnvelopeOf(w, version, id, rows, generation, Some(writes)), Some(writes))
  }

  function RunOneOf(w: World, store: Store, path: string, statement: string, version: nat, id: string): (one: OneRun)
    ensures AboutOf(one.reply) == Some(id)
  {
    match w.oracle.cypher(statement)
    case Some(code) => OneRun(store, Diagnostic(version, id, code), None)
    case None =>
      var begun := BeginOf(w.oracle, store, path);
      match begun.txn
      case None => OneRun(begun.store, Trouble(version, id, BeginFailed), None)
      case Some(txn) => SettleOne(w, RunOf(w.oracle, begun.store, txn, statement), version, id)
  }

  // ---------------------------------------------------------------------------------------------
  // Outside a transaction

  datatype Verdict = Send(reply: Reply) | StartTransaction(session: Session) | StopDaemon(reply: Reply)

  datatype Dispatched = Dispatched(
    verdict: Verdict,
    slot: SlotState,
    store: Store,
    target: Option<string>,
    overlay: Option<Overlay>
  )

  function Said(verdict: Verdict, slot: SlotState, store: Store): Dispatched {
    Dispatched(verdict, slot, store, None, None)
  }

  /** What opening a database by name comes to, once the catalog is loaded. */
  function OpenNamed(
    w: World, slot: SlotState, store: Store, name: string, id: string, version: nat, catalog: Contents)
    : (d: Dispatched)
    ensures !d.verdict.StartTransaction? ==> AboutOf(d.verdict.reply) == Some(id)
  {
    var o := OpenOf(w.oracle, slot, store, name, catalog);
    match o.result
    case Ok(session) =>
      Dispatched(Send(Accepted(version, id, SessionOpened(session.id))), o.slot, o.store, Some(session.path), None)
    case Err(Refused(rule)) => Said(Send(Refusal(version, Some(id), rule)), o.slot, o.store)
    case Err(UnknownName(_)) => Said(Send(Trouble(version, id, NotInCatalog)), o.slot, o.store)
    case Err(Storage) => Said(Send(Trouble(version, id, DatabaseUnreachable)), o.slot, o.store)
  }

  ghost function OpenSessionOf(w: World, slot: SlotState, store: Store, request: Request, version: nat): (d: Dispatched)
    ensures !d.verdict.StartTransaction? ==> AboutOf(d.verdict.reply) == Some(request.requestId)
  {
    var id := request.requestId;
    if request.database == None then
      Said(Send(Trouble(version, id, NoDatabaseNamed)), slot, store)
    else
      var store' := Ticked(w.oracle, store);
      match LoadOf(w.oracle.files(store.tick))
      case Err(_) => Said(Send(Trouble(version, id, CatalogUnusable)), slot, store')
      case Ok(catalog) => OpenNamed(w, slot, store', request.database.value, id, version, catalog)
  }

  ghost function DispatchOf(w: World, slot: SlotState, store: Store, request: Request, version: nat): (d: Dispatched)
    ensures !d.verdict.StartTransaction? ==> AboutOf(d.verdict.reply) == Some(request.requestId)
  {
    var id := request.requestId;
    match request.operation
    case OpenSession => OpenSessionOf(w, slot, store, request, version)
    case CloseSession =>
      Said(Send(Accepted(version, id, SessionClosed(slot.session.Some?))), slot.(session := None), store)
    case Status =>
      var sessions := if slot.session.Some? then 1 else 0;
      Said(Send(Accepted(version, id, StatusReport(w.endpoint, sessions, version))), slot, store)
    case Shutdown => Said(StopDaemon(Accepted(version, id, Stopping)), slot, store)
    case Query =>
      (match ResolveOf(slot.session, request.sessionId)
       case Err(rule) => Said(Send(Refusal(version, Some(id), rule)), slot, store)
       case Ok(session) =>
         if request.statement == None then
           Said(Send(Trouble(version, id, NoStatement)), slot, store)
         else
           var one := RunOneOf(w, store, session.path, request.statement.value, version, id);
           Dispatched(Send(one.reply), slot, one.store, None, one.overlay))
    case Begin =>
      (match ResolveOf(slot.session, request.sessionId)
       case Err(rule) => Said(Send(Refusal(version, Some(id), rule)), slot, store)
       case Ok(session) => Said(StartTransaction(session), slot, store))
    case Commit => Said(Send(Trouble(version, id, NothingToFinish)), slot, store)
    case Rollback => Said(Send(Trouble(version, id, NothingToFinish)), slot, store)
  }

  /** An accepted `begin` leaves the slot alone, so resolving the session again gives the same one. */
  lemma BeginResolves(w: World, slot: SlotState, store: Store, request: Request, version: nat)
    ensures var d := DispatchOf(w, slot, store, request, version);
            d.verdict.StartTransaction? ==>
              && d.slot == slot && d.store == store
              && slot.session == Some(d.verdict.session)
              && ResolveOf(d.slot.session, request.sessionId) == Ok(d.verdict.session)
  {
  }

  // ---------------------------------------------------------------------------------------------
  // The steps

  function Saying(w: World, sent: Sent, reply: Reply): Write {
    WriteOf(w.faults, sent, w.render(reply), w.maxFrameBytes)
  }

  /** What a step sends is what it says. */
  predicate Sends(w: World, c: Conn, s: Move) {
    s.after.sent == if s.said == [] then c.sent else Saying(w, c.sent, s.said[0].reply).sent
  }

  /** Sends the reply and moves on, to one mode when it was sent and to another when it was not. */
  function Answer(w: World, c: Conn, x: Exchange, whenSent: Mode, whenFailed: Mode): (s: Move)
    ensures s.after.wire == c.wire && s.said == [x] && Sends(w, c, s)
  {
    var write := Saying(w, c.sent, x.reply);
    Step(c.(sent := write.sent, mode := if write.result.Ok? then whenSent else whenFailed), [x])
  }

  function Finish(c: Conn, how: Ended): Move {
    Step(c.(mode := Finished(how)), [])
  }

  function Resting(session: Option<Session>): Mode {
    match session
    case None => Idle
    case Some(s) => InSession(s)
  }

  function Plain(body: Text, request: Option<Request>, reply: Reply): Exchange {
    Exchange(Some(body), request, reply, None, None)
  }

  function GreetingStep(w: World, c: Conn, read: Result<Text, FrameError>): (s: Move)
    ensures s.after.wire == c.wire && |s.said| <= 1 && Sends(w, c, s)
    ensures read.Err? ==> s.after.mode.Finished? && s.said == []
  {
    match read
    case Err(error) => Finish(c, if error.Closed? then ClientClosed else TransportFailed)
    case Ok(body) =>
      match Handshake(w.parse(body))
      case Err(_) =>
        Answer(w, c, Plain(body, None, Unwelcome(Message.SUPPORTED_VERSIONS)),
               Finished(HandshakeRefused), Finished(HandshakeRefused))
      case Ok(version) =>
        Answer(w, c.(version := version), Plain(body, None, Welcome(version, w.endpoint)),
               Idle, Finished(TransportFailed))
  }

  function BeginStep(w: World, c: Conn, session: Session, body: Text, request: Request): (s: Move)
    ensures s.after.wire == c.wire && |s.said| == 1 && Sends(w, c, s)
  {
    var begun := BeginOf(w.oracle, c.store, session.path);
    var c' := c.(store := begun.store);
    match begun.txn
    case None =>
      Answer(w, c', Plain(body, Some(request), Trouble(c.version, request.requestId, BeginFailed)),
             InSession(session), InSession(session))
    case Some(txn) =>
      Answer(w, c', Plain(body, Some(request), Accepted(c.version, request.requestId, Began(txn.base))),
             InTransaction(session, txn, {}), Finished(TransportFailed))
  }

  ghost function ServeStep(w: World, c: Conn, session: Option<Session>, body: Text, request: Request): (s: Move)
    ensures s.after.wire == c.wire && |s.said| == 1 && Sends(w, c, s)
  {
    var d := DispatchOf(w, SlotState(session, c.next), c.store, request, c.version);
    var c' := c.(next := d.slot.next, store := d.store);
    match d.verdict
    case Send(reply) =>
      Answer(w, c', Exchange(Some(body), Some(request), reply, d.target, d.overlay),
             Resting(d.slot.session), Finished(TransportFailed))
    case StopDaemon(reply) =>
      Answer(w, c', Plain(body, Some(request), reply), Finished(ShutdownRequested), Finished(ShutdownRequested))
    case StartTransaction(held) => BeginStep(w, c', held, body, request)
  }

  ghost function RequestStep(w: World, c: Conn, session: Option<Session>, read: Result<Text, FrameError>): (s: Move)
    ensures s.after.wire == c.wire && |s.said| <= 1 && Sends(w, c, s)
    ensures read.Err? ==> s.after.mode.Finished? && (read.error.TooLarge? || s.said == [])
  {
    match read
    case Err(Closed) => Finish(c, ClientClosed)
    case Err(TooLarge(_, _)) =>
      var x := Exchange(None, None, Refusal(c.version, None, FrameTooLarge), None, None);
      Answer(w, c, x, Finished(TransportFailed), Finished(TransportFailed))
    case Err(_) => Finish(c, TransportFailed)
    case Ok(body) =>
      match DecodeRequest(w.parse(body), {})
      case Err(rule) =>
        Answer(w, c, Plain(body, None, Refusal(c.version, None, rule)), Resting(session), Resting(session))
      case Ok(request) => ServeStep(w, c, session, body, request)
  }

  function CommitStep(w: World, c: Conn, m: Mode, body: Text, request: Request): (s: Move)
    requires m.InTransaction?
    ensures s.after.wire == c.wire && |s.said| == 1 && Sends(w, c, s)
  {
    var k := CommitOf(w.oracle, c.store, m.txn);
    var reply := match k.generation
      case Some(generation) => Accepted(c.version, request.requestId, Committed(generation))
      case None => Trouble(c.version, request.requestId, CommitRefused);
    Answer(w, c.(store := k.store), Plain(body, Some(request), reply), InSession(m.session), InSession(m.session))
  }

  datatype RegionRun = RegionRun(store: Store, txn: Txn, reply: Reply, overlay: Option<Overlay>)

  function QueryInRegionOf(w: World, store: Store, txn: Txn, statement: string, version: nat, id: string): RegionRun {
    match w.oracle.cypher(statement)
    case Some(code) => RegionRun(store, txn, Diagnostic(version, id, code), None)
    case None =>
      var ran := RunOf(w.oracle, store, txn, statement);
      var writes := ran.txn.overlay;
      match ran.result
      case Failure(code) => RegionRun(ran.store, ran.txn, Diagnostic(version, id, code), Some(writes))
      case Rows(rows) =>
        RegionRun(ran.store, ran.txn, EnvelopeOf(w, version, id, rows, txn.base, Some(writes)), Some(writes))
  }

  function StatementStep(w: World, c: Conn, m: Mode, body: Text, request: Request, statement: string): (s: Move)
    requires m.InTransaction?
    ensures s.after.wire == c.wire && |s.said| == 1 && Sends(w, c, s)
  {
    var q := QueryInRegionOf(w, c.store, m.txn, statement, c.version, request.requestId);
    Answer(w, c.(store := q.store), Exchange(Some(body), Some(request), q.reply, None, q.overlay),
           m.(txn := q.txn), Finished(TransportFailed))
  }

  function RegionRequest(w: World, c: Conn, m: Mode, body: Text, request: Request): (s: Move)
    requires m.InTransaction?
    ensures s.after.wire == c.wire && |s.said| == 1 && Sends(w, c, s)
  {
    var id := request.requestId;
    match request.operation
    case Commit => CommitStep(w, c, m, body, request)
    case Rollback =>
      Answer(w, c, Plain(body, Some(request), Accepted(c.version, id, RolledBack)),
             InSession(m.session), InSession(m.session))
    case Query =>
      if request.statement == None then
        var held := m.(stuck := m.stuck + {id});
        Answer(w, c, Plain(body, Some(request), Trouble(c.version, id, NoStatement)), held, held)
      else
        StatementStep(w, c, m, body, request, request.statement.value)
    case Status =>
      Answer(w, c, Plain(body, Some(request), Accepted(c.version, id, TransactionStatus(m.txn.base))),
             m, Finished(TransportFailed))
    case Begin =>
      Answer(w, c, Plain(body, Some(request), Trouble(c.version, id, AlreadyInTransaction)),
             m, Finished(TransportFailed))
    case _ =>
      Answer(w, c, Plain(body, Some(request), Trouble(c.version, id, FinishFirst)),
             m, Finished(TransportFailed))
  }

  /** A step inside a transaction. Every way out but a commit leaves the store as it is. */
  function RegionStep(w: World, c: Conn, m: Mode, read: Result<Text, FrameError>): (s: Move)
    requires m.InTransaction?
    ensures s.after.wire == c.wire && |s.said| <= 1 && Sends(w, c, s)
    ensures read.Err? ==> s.after.mode.Finished? && s.said == []
  {
    match read
    case Err(error) => Finish(c, if error.Closed? then ClientClosed else TransportFailed)
    case Ok(body) =>
      match DecodeRequest(w.parse(body), m.stuck)
      case Err(rule) =>
        Answer(w, c, Plain(body, None, Refusal(c.version, None, rule)), m, Finished(TransportFailed))
      case Ok(request) => RegionRequest(w, c, m, body, request)
  }

  /** One frame, in whatever mode the connection is. */
  ghost function Next(w: World, c: Conn): (s: Move)
    requires !c.mode.Finished?
    ensures s.after.wire == FrameAt(c.wire, w.maxFrameBytes).rest
    ensures s.after.mode.Finished? || |s.after.wire| + PREFIX_BYTES <= |c.wire|
    ensures |s.said| <= 1 && Sends(w, c, s)
    ensures s.said != [] ==> |s.after.wire| + PREFIX_BYTES <= |c.wire|
  {
    var d := FrameAt(c.wire, w.maxFrameBytes);
    var c' := c.(wire := d.rest);
    match c.mode
    case Greeting => GreetingStep(w, c', d.result)
    case Idle => RequestStep(w, c', None, d.result)
    case InSession(session) => RequestStep(w, c', Some(session), d.result)
    case InTransaction(_, _, _) => RegionStep(w, c', c.mode, d.result)
  }

  ghost function Measure(c: Conn): nat {
    if c.mode.Finished? then 0 else |c.wire| + 1
  }

  /** The whole conversation, to its end. */
  ghost function Run(w: World, c: Conn): (end: Conn)
    ensures end.mode.Finished?
    decreases Measure(c)
  {
    if c.mode.Finished? then c else Run(w, Next(w, c).after)
  }

  /** The same, one step at a time: an ended connection says nothing more. */
  ghost function Machine(w: World): Conn -> Move {
    (c: Conn) => if c.mode.Finished? then Step(c, []) else Next(w, c)
  }

  /** As many steps as an input of this length can need. */
  function Enough(c: Conn): nat {
    |c.wire| / PREFIX_BYTES + 1
  }

  /** Everything that is said in a conversation, in order. */
  ghost function Transcript(w: World, c: Conn): seq<Exchange> {
    SaidBy(Machine(w), c, Enough(c))
  }

  lemma RestingRun(w: World, c: Conn, session: Option<Session>)
    requires c.mode == Resting(session)
    ensures var d := FrameAt(c.wire, w.maxFrameBytes);
            Run(w, c) == Run(w, RequestStep(w, c.(wire := d.rest), session, d.result).after)
  {
  }

  /** A connection that has just been accepted. */
  function Opening(wire: seq<Signal>, sent: Sent, store: Store): Conn {
    Conn(Greeting, 0, 1, wire, sent, store)
  }
}

/**
 The program of src/serve.rs, in its own form: a request loop, and nested in it a second loop that
 owns the transaction. It keeps no mode. Its slot, its Engine and its place in the code are proved
 to stay in step with the flat automaton of Protocol.dfy, whatever the client sends, the Engine
 answers and the transport does.
 */
module Serve {
  import opened Wrappers
  import opened Utf8
  import opened Frame
  import opened FrameIO
  import opened Message
  import opened Catalog
  import opened Engine
  import opened Session
  import opened Protocol

  datatype RegionEnd = Continue | RegionClosed | RegionFailed

  /** The automaton's state while the program is at the head of its outer loop. */
  ghost function Outside(slot: Slot, version: nat, stream: Stream, engine: Engine): Conn
    reads slot, stream, engine
  {
    Conn(Resting(slot.session), version, slot.next, stream.Remaining(), stream.Sending(), engine.State())
  }

  /** The automaton's state while the program is at the head of its nested loop. */
  ghost function Inside(
    session: Session, stuck: set<string>, slot: Slot, version: nat, stream: Stream, engine: Engine): Conn
    requires engine.active.Some?
    reads slot, stream, engine
  {
    Conn(InTransaction(session, engine.active.value, stuck), version, slot.next,
         stream.Remaining(), stream.Sending(), engine.State())
  }

  /** The program has ended, and left behind what the automaton's last state says. */
  ghost predicate Ends(end: Conn, how: Ended, stream: Stream, engine: Engine)
    reads stream, engine
  {
    && end.mode == Finished(how)
    && end.wire == stream.Remaining()
    && end.sent == stream.Sending()
    && end.store == engine.State()
    && engine.active == None
  }

  method Say(w: World, stream: Stream, reply: Reply) returns (r: Result<(), FrameError>)
    requires stream.faults == w.faults
    modifies stream`written, stream`calls
    ensures Write(stream.Sending(), r) == Saying(w, old(stream.Sending()), reply)
  {
    r := WriteFrame(stream, w.render(reply), w.maxFrameBytes);
  }

  method OpenSession(w: World, request: Request, slot: Slot, engine: Engine, version: nat) returns (reply: Reply)
    requires engine.oracle == w.oracle && engine.active == None
    modifies slot, engine`journal, engine`tick
    ensures var d := OpenSessionOf(w, old(slot.State()), old(engine.State()), request, version);
            Send(reply) == d.verdict && slot.State() == d.slot && engine.State() == d.store
  {
    var id := request.requestId;
    if request.database == None {
      return Trouble(version, id, NoDatabaseNamed);
    }
    var file := engine.ReadCatalogFile();
    var loaded := Catalog.Load(file);
    match loaded {
      case Err(_) => return Trouble(version, id, CatalogUnusable);
      case Ok(catalog) =>
        var session := slot.Open(engine, request.database.value, catalog);
        match session {
          case Ok(held) => return Accepted(version, id, SessionOpened(held.id));
          case Err(Refused(rule)) => return Refusal(version, Some(id), rule);
          case Err(UnknownName(_)) => return Trouble(version, id, NotInCatalog);
          case Err(Storage) => return Trouble(version, id, DatabaseUnreachable);
        }
    }
  }

  /** A statement outside a region: begun, run, and committed or rolled back before it is answered. */
  method RunOne(w: World, engine: Engine, path: string, statement: string, version: nat, id: string)
    returns (reply: Reply)
    requires engine.oracle == w.oracle && engine.active == None
    modifies engine
    ensures engine.active == None
    ensures var one := RunOneOf(w, old(engine.State()), path, statement, version, id);
            reply == one.reply && engine.State() == one.store
  {
    match w.oracle.cypher(statement) {
      case Some(code) => return Diagnostic(version, id, code);
      case None =>
    }
    var begun := engine.Begin(path);
    if !begun {
      return Trouble(version, id, BeginFailed);
    }
    var base := engine.active.value.base;
    var result := engine.Run(statement);
    match result {
      case Failure(code) =>
        engine.Rollback();
        return Diagnostic(version, id, code);
      case Rows(rows) =>
        var writes := engine.active.value.overlay;
        if writes == [] {
          engine.Rollback();
          return EnvelopeOf(w, version, id, rows, base, None);
        }
        var generation := engine.Commit();
        if generation == None {
          return Trouble(version, id, CommitRefused);
        }
        return EnvelopeOf(w, version, id, rows, generation.value, Some(writes));
    }
  }

  method Dispatch(w: World, request: Request, slot: Slot, engine: Engine, version: nat) returns (verdict: Verdict)
    requires engine.oracle == w.oracle && engine.active == None
    modifies slot, engine
    ensures engine.active == None
    ensures var d := DispatchOf(w, old(slot.State()), old(engine.State()), request, version);
            verdict == d.verdict && slot.State() == d.slot && engine.State() == d.store
  {
    var id := request.requestId;
    match request.operation {
      case OpenSession =>
        var reply := OpenSession(w, request, slot, engine, version);
        return Send(reply);
      case CloseSession =>
        var closed := slot.Close();
        return Send(Accepted(version, id, SessionClosed(closed)));
      case Status =>
        var sessions := if slot.session.Some? then 1 else 0;
        return Send(Accepted(version, id, StatusReport(w.endpoint, sessions, version)));
      case Shutdown =>
        return StopDaemon(Accepted(version, id, Stopping));
      case Query =>
        var session := slot.Resolve(request.sessionId);
        match session {
          case Err(rule) => return Send(Refusal(version, Some(id), rule));
          case Ok(held) =>
            if request.statement == None {
              return Send(Trouble(version, id, NoStatement));
            }
            var reply := RunOne(w, engine, held.path, request.statement.value, version, id);
            return Send(reply);
        }
      case Begin =>
        var session := slot.Resolve(request.sessionId);
        match session {
          case Err(rule) => return Send(Refusal(version, Some(id), rule));
          case Ok(held) => return StartTransaction(held);
        }
      case Commit =>
        return Send(Trouble(version, id, NothingToFinish));
      case Rollback =>
        return Send(Trouble(version, id, NothingToFinish));
    }
  }

  /** Runs one statement in the open transaction. */
  method RunInRegion(w: World, engine: Engine, base: nat, statement: string, version: nat, id: string)
    returns (reply: Reply)
    requires engine.oracle == w.oracle && engine.active.Some? && engine.active.value.base == base
    modifies engine
    ensures engine.active.Some?
    ensures var q := QueryInRegionOf(w, old(engine.State()), old(engine.active.value), statement, version, id);
            reply == q.reply && engine.State() == q.store && engine.active.value == q.txn
  {
    match w.oracle.cypher(statement) {
      case Some(code) => return Diagnostic(version, id, code);
      case None =>
    }
    var result := engine.Run(statement);
    match result {
      case Failure(code) => return Diagnostic(version, id, code);
      case Rows(rows) =>
        return EnvelopeOf(w, version, id, rows, base, Some(engine.active.value.overlay));
    }
  }

  /**
   Answers one request of the region. An identifier is outstanding from here until its reply is
   ready to be sent; the reply to a query without a statement is sent before that.
   */
  method AnswerInRegion(
      w: World, stream: Stream, slot: Slot, engine: Engine, session: Session, base: nat, request: Request,
      version: nat, waiting: set<string>, ghost body: Text)
    returns (over: Option<RegionEnd>, outstanding: set<string>)
    requires stream.faults == w.faults && engine.oracle == w.oracle
    requires engine.active.Some? && engine.active.value.base == base
    requires slot.session == Some(session) && request.requestId !in waiting
    modifies stream`written, stream`calls, engine
    ensures var c := old(Inside(session, waiting, slot, version, stream, engine));
            var after := RegionRequest(w, c, c.mode, body, request).after;
            match over
            case None =>
              && engine.active.Some? && engine.active.value.base == base
              && after == Inside(session, outstanding, slot, version, stream, engine)
            case Some(Continue) => engine.active == None && after == Outside(slot, version, stream, engine)
            case Some(RegionFailed) => Ends(after, TransportFailed, stream, engine)
            case Some(RegionClosed) => false
  {
    var id := request.requestId;
    outstanding := waiting + {id};
    var reply;
    match request.operation {
      case Commit =>
        var generation := engine.Commit();
        var _ := Say(w, stream,
          if generation.Some? then Accepted(version, id, Committed(generation.value))
          else Trouble(version, id, CommitRefused));
        return Some(Continue), outstanding;
      case Rollback =>
        engine.Rollback();
        var _ := Say(w, stream, Accepted(version, id, RolledBack));
        return Some(Continue), outstanding;
      case Query =>
        if request.statement == None {
          var _ := Say(w, stream, Trouble(version, id, NoStatement));
          return None, outstanding;
        }
        reply := RunInRegion(w, engine, base, request.statement.value, version, id);
      case Begin =>
        reply := Trouble(version, id, AlreadyInTransaction);
      case Status =>
        reply := Accepted(version, id, TransactionStatus(base));
      case _ =>
        reply := Trouble(version, id, FinishFirst);
    }
    outstanding := outstanding - {id};
    assert outstanding == waiting;
    var sent := Say(w, stream, reply);
    if sent.Err? {
      engine.Rollback();
      return Some(RegionFailed), outstanding;
    }
    over := None;
  }

  method RegionLoop(
      w: World, stream: Stream, slot: Slot, engine: Engine, session: Session, base: nat, version: nat)
    returns (end: RegionEnd)
    requires stream.faults == w.faults && engine.oracle == w.oracle
    requires slot.session == Some(session)
    requires engine.active.Some? && engine.active.value.base == base
    modifies stream, engine
    ensures engine.active == None
    ensures |stream.Remaining()| <= old(|stream.Remaining()|)
    ensures var all := Run(w, old(Inside(session, {}, slot, version, stream, engine)));
            match end
            case Continue => all == Run(w, Outside(slot, version, stream, engine))
            case RegionClosed => Ends(all, ClientClosed, stream, engine)
            case RegionFailed => Ends(all, TransportFailed, stream, engine)
  {
    var outstanding: set<string> := {};
    ghost var all := Run(w, Inside(session, {}, slot, version, stream, engine));
    while true
      invariant engine.active.Some? && engine.active.value.base == base
      invariant Run(w, Inside(session, outstanding, slot, version, stream, engine)) == all
      invariant |stream.Remaining()| <= old(|stream.Remaining()|)
      decreases |stream.Remaining()|
    {
      ghost var here := Inside(session, outstanding, slot, version, stream, engine);
      var read, _ := ReadFrame(stream, w.maxFrameBytes);
      ghost var c := Inside(session, outstanding, slot, version, stream, engine);
      assert Next(w, here) == RegionStep(w, c, c.mode, read);
      match read {
        case Err(error) =>
          engine.Rollback();
          return if error.Closed? then RegionClosed else RegionFailed;
        case Ok(body) =>
          match DecodeRequest(w.parse(body), outstanding) {
            case Err(rule) =>
              var sent := Say(w, stream, Refusal(version, None, rule));
              if sent.Err? {
                engine.Rollback();
                return RegionFailed;
              }
            case Ok(request) =>
              var over;
              over, outstanding :=
                AnswerInRegion(w, stream, slot, engine, session, base, request, version, outstanding, body);
              if over.Some? {
                return over.value;
              }
          }
      }
    }
  }

  /**
   From an accepted `begin` to whatever ends the transaction. The slot is not among what this
   modifies, so the session it resolved is the session that is there when it ends.
   */
  method RunTransactionRegion(
      w: World, stream: Stream, slot: Slot, engine: Engine, begin: Request, version: nat, ghost body: Text)
    returns (end: RegionEnd)
    requires stream.faults == w.faults && engine.oracle == w.oracle && engine.active == None
    modifies stream, engine
    ensures engine.active == None
    ensures |stream.Remaining()| <= old(|stream.Remaining()|)
    ensures match ResolveOf(slot.session, begin.sessionId)
            case Err(rule) =>
              end == Continue && engine.State() == old(engine.State())
            case Ok(session) =>
              var after := BeginStep(w, old(Outside(slot, version, stream, engine)), session, body, begin).after;
              match end
              case Continue => Run(w, after) == Run(w, Outside(slot, version, stream, engine))
              case RegionClosed => Ends(Run(w, after), ClientClosed, stream, engine)
              case RegionFailed => Ends(Run(w, after), TransportFailed, stream, engine)
  {
    var resolved := slot.Resolve(begin.sessionId);
    if resolved.Err? {
      var _ := Say(w, stream, Refusal(version, Some(begin.requestId), resolved.error));
      return Continue;
    }
    var session := resolved.value;
    ghost var after := BeginStep(w, Outside(slot, version, stream, engine), session, body, begin).after;
    var begun := engine.Begin(session.path);
    if !begun {
      var _ := Say(w, stream, Trouble(version, begin.requestId, BeginFailed));
      return Continue;
    }
    var base := engine.active.value.base;
    var sent := Say(w, stream, Accepted(version, begin.requestId, Began(base)));
    if sent.Err? {
      engine.Rollback();
      return RegionFailed;
    }
    end := RegionLoop(w, stream, slot, engine, session, base, version);
  }

  /** Dispatches one request and sends its reply, or hands the connection to the nested loop. */
  method AnswerRequest(
      w: World, stream: Stream, slot: Slot, engine: Engine, request: Request, version: nat, ghost body: Text)
    returns (over: Option<Ended>)
    requires stream.faults == w.faults && engine.oracle == w.oracle && engine.active == None
    modifies stream, slot, engine
    ensures engine.active == None
    ensures |stream.Remaining()| <= old(|stream.Remaining()|)
    ensures var before := old(Outside(slot, version, stream, engine));
            var after := ServeStep(w, before, old(slot.session), body, request).after;
            match over
            case None => Run(w, after) == Run(w, Outside(slot, version, stream, engine))
            case Some(how) => Ends(Run(w, after), how, stream, engine)
  {
    BeginResolves(w, slot.State(), engine.State(), request, version);
    var verdict := Dispatch(w, request, slot, engine, version);
    match verdict {
      case Send(reply) =>
        var sent := Say(w, stream, reply);
        over := if sent.Err? then Some(TransportFailed) else None;
      case StartTransaction(_) =>
        var region := RunTransactionRegion(w, stream, slot, engine, request, version, body);
        match region {
          case Continue =>
            over := None;
          case RegionClosed =>
            var _ := slot.Close();
            over := Some(ClientClosed);
          case RegionFailed =>
            over := Some(TransportFailed);
        }
      case StopDaemon(reply) =>
        var _ := Say(w, stream, reply);
        var _ := slot.Close();
        over := Some(ShutdownRequested);
    }
  }

  /** Answers what came in one frame. A request's identifier is outstanding while it is answered. */
  method AnswerBody(
      w: World, stream: Stream, slot: Slot, engine: Engine, body: Text, version: nat, waiting: set<string>)
    returns (over: Option<Ended>, outstanding: set<string>)
    requires stream.faults == w.faults && engine.oracle == w.oracle && engine.active == None && waiting == {}
    modifies stream, slot, engine
    ensures engine.active == None && outstanding == {}
    ensures |stream.Remaining()| <= old(|stream.Remaining()|)
    ensures var before := old(Outside(slot, version, stream, engine));
            var after := RequestStep(w, before, old(slot.session), Ok(body)).after;
            match over
            case None => Run(w, after) == Run(w, Outside(slot, version, stream, engine))
            case Some(how) => Ends(Run(w, after), how, stream, engine)
  {
    outstanding := waiting;
    match DecodeRequest(w.parse(body), outstanding) {
      case Err(rule) =>
        var _ := Say(w, stream, Refusal(version, None, rule));
        over := None;
      case Ok(request) =>
        outstanding := outstanding + {request.requestId};
        over := AnswerRequest(w, stream, slot, engine, request, version, body);
        outstanding := outstanding - {request.requestId};
    }
  }

  /** The outer loop. Its set of outstanding identifiers is empty at every head. */
  method RequestLoop(w: World, stream: Stream, slot: Slot, engine: Engine, version: nat) returns (ended: Ended)
    requires stream.faults == w.faults && engine.oracle == w.oracle && engine.active == None
    modifies stream, slot, engine
    ensures Ends(Run(w, old(Outside(slot, version, stream, engine))), ended, stream, engine)
  {
    var outstanding: set<string> := {};
    ghost var end := Run(w, Outside(slot, version, stream, engine));
    while true
      invariant outstanding == {}
      invariant engine.active == None
      invariant Run(w, Outside(slot, version, stream, engine)) == end
      decreases |stream.Remaining()|
    {
      RestingRun(w, Outside(slot, version, stream, engine), slot.session);
      var read, _ := ReadFrame(stream, w.maxFrameBytes);
      ghost var after := RequestStep(w, Outside(slot, version, stream, engine), slot.session, read).after;
      assert Run(w, after) == end;
      match read {
        case Err(Closed) =>
          var _ := slot.Close();
          return ClientClosed;
        case Err(TooLarge(_, _)) =>
          var _ := Say(w, stream, Refusal(version, None, FrameTooLarge));
          return TransportFailed;
        case Err(_) =>
          return TransportFailed;
        case Ok(body) =>
          var over;
          over, outstanding := AnswerBody(w, stream, slot, engine, body, version, outstanding);
          if over.Some? {
            return over.value;
          }
      }
    }
  }

  /** A whole connection: greets the client, and then answers it until one of the two ends it. */
  method ServeConnection(w: World, stream: Stream, engine: Engine) returns (ended: Ended)
    requires stream.faults == w.faults && engine.oracle == w.oracle && engine.active == None
    modifies stream, engine
    ensures Ends(Run(w, old(Opening(stream.Remaining(), stream.Sending(), engine.State()))), ended, stream, engine)
  {
    ghost var start := Opening(stream.Remaining(), stream.Sending(), engine.State());
    ghost var end := Run(w, start);
    assert end == Run(w, Next(w, start).after);
    var opening, _ := ReadFrame(stream, w.maxFrameBytes);
    assert Next(w, start) == GreetingStep(w, start.(wire := stream.Remaining()), opening);
    match opening {
      case Err(error) =>
        return if error.Closed? then ClientClosed else TransportFailed;
      case Ok(body) =>
        match Handshake(w.parse(body)) {
          case Err(_) =>
            var _ := Say(w, stream, Unwelcome(Message.SUPPORTED_VERSIONS));
            return HandshakeRefused;
          case Ok(version) =>
            var welcomed := Say(w, stream, Welcome(version, w.endpoint));
            if welcomed.Err? {
              return TransportFailed;
            }
            var slot := new Slot();
            ended := RequestLoop(w, stream, slot, engine, version);
        }
    }
  }
}

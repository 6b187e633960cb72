/**
 What the transcript of a conversation says about the daemon's state. A transcript is the frames, the
 requests and the replies, and two things that no reply need state: the path of a session that was
 opened, and what the transaction held after a statement ran, also where the statement failed or its
 result was over the row ceiling. `ViewOf` replays only that: it knows no mode, no slot and no journal,
 and it is proved to determine all three at every point of every conversation.
 */
module Transcripts {
  import opened Wrappers
  import opened Utf8
  import opened Frame
  import opened FrameIO
  import opened Message
  import opened Catalog
  import opened Engine
  import opened Session
  import opened Protocol
  import opened Automaton

  // ---------------------------------------------------------------------------------------------
  // Termination

  lemma MachineConsumes(w: World, c: Conn)
    ensures Consumes(Machine(w), (c': Conn) => c'.mode.Finished?, (c': Conn) => |c'.wire|, PREFIX_BYTES, c)
  {
  }

  lemma MachineUnfolds(w: World, c: Conn)
    ensures Unfolds(Machine(w), (c': Conn) => c'.mode.Finished?, (c': Conn) => Run(w, c'), c)
  {
  }

  /**
   Whole-conversation termination: the outer and the nested loop together go round at most once for
   every four bytes of input and once more, and that is the run the program computes.
   */
  lemma ConversationEnds(w: World, c: Conn)
    ensures After(Machine(w), c, Enough(c)).mode.Finished?
    ensures After(Machine(w), c, Enough(c)) == Run(w, c)
  {
    var done := (c': Conn) => c'.mode.Finished?;
    var size := (c': Conn) => |c'.wire|;
    var run := (c': Conn) => Run(w, c');
    forall c' ensures Consumes(Machine(w), done, size, PREFIX_BYTES, c') {
      MachineConsumes(w, c');
    }
    forall c' ensures Unfolds(Machine(w), done, run, c') {
      MachineUnfolds(w, c');
    }
    RunsToTheEnd(Machine(w), done, size, PREFIX_BYTES, run, c, Enough(c));
  }

  ghost predicate Afforded(total: nat, c: Conn, answered: nat) {
    PREFIX_BYTES * answered + |c.wire| <= total
  }

  function Count(answered: nat, x: Exchange): nat {
    answered + 1
  }

  lemma MachineAffords(w: World, total: nat, c: Conn, answered: nat)
    requires Afforded(total, c, answered)
    ensures Afforded(total, Machine(w)(c).after, Replay(Count, answered, Machine(w)(c).said))
  {
  }

  lemma {:induction false} CountReplays(answered: nat, xs: seq<Exchange>)
    ensures Replay(Count, answered, xs) == answered + |xs|
    decreases |xs|
  {
    if xs == [] {
    } else {
      CountReplays(answered + 1, xs[1..]);
    }
  }

  /** No conversation answers more than once for every four bytes of its input. */
  lemma AnswersAreAfforded(w: World, c: Conn)
    ensures PREFIX_BYTES * |Transcript(w, c)| <= |c.wire|
  {
    var afforded := (c': Conn, answered: nat) => Afforded(|c.wire|, c', answered);
    forall c': Conn, answered: nat ensures KeepsAgreement(Machine(w), Count, afforded, c', answered) {
      if afforded(c', answered) {
        MachineAffords(w, |c.wire|, c', answered);
      }
    }
    StepsAgree(Machine(w), Count, afforded, c, 0, Enough(c));
    CountReplays(0, Transcript(w, c));
  }

  // ---------------------------------------------------------------------------------------------
  // Replaying a transcript

  datatype TxnView = TxnView(base: nat, overlay: Overlay, stuck: set<string>)

  /** What a transcript implies: who is greeted, what session and transaction are open, what was published. */
  datatype View = View(greeted: bool, session: Option<Session>, txn: Option<TxnView>, published: seq<Effect>)

  const NOTHING_SAID := View(false, None, None, [])

  /** A statement ran and left this overlay in the transaction, if there is one. */
  function Ranked(txn: Option<TxnView>, overlay: Option<Overlay>): Option<TxnView> {
    if txn.Some? && overlay.Some? then Some(txn.value.(overlay := overlay.value)) else txn
  }

  function SessionAfter(v: View, x: Exchange): Option<Session> {
    match x.reply
    case Accepted(_, _, SessionOpened(id)) =>
      if x.request.Some? && x.request.value.database.Some? && x.target.Some? then
        Some(Session(id, x.request.value.database.value, x.target.value))
      else v.session
    case Accepted(_, _, SessionClosed(_)) => None
    case _ => v.session
  }

  function TxnAfter(v: View, x: Exchange): Option<TxnView> {
    match x.reply
    case Accepted(_, _, Began(base)) => Some(TxnView(base, [], {}))
    case Accepted(_, _, Committed(_)) => None
    case Accepted(_, _, RolledBack) => None
    case Trouble(_, _, CommitRefused) => None
    case Trouble(_, id, NoStatement) =>
      if v.txn.Some? then Some(v.txn.value.(stuck := v.txn.value.stuck + {id})) else None
    case _ => Ranked(v.txn, x.overlay)
  }

  /**
   What an exchange says was published: what the transaction held, when its commit was accepted;
   and outside a transaction, what a statement wrote, unless its reply is an error. The row ceiling
   is no such error: it is reported after the statement was committed.
   */
  function PublishedBy(v: View, x: Exchange): seq<Effect> {
    if v.session == None then []
    else
      match x.reply
      case Accepted(_, _, Committed(_)) =>
        if v.txn.Some? then Effects(v.session.value.path, v.txn.value.overlay) else []
      case Accepted(_, _, Envelope(_, _, _)) =>
        if v.txn == None && x.overlay.Some? then Effects(v.session.value.path, x.overlay.value) else []
      case RowLimit(_, _) =>
        if v.txn == None && x.overlay.Some? then Effects(v.session.value.path, x.overlay.value) else []
      case _ => []
  }

  function ViewStep(v: View, x: Exchange): View {
    View(v.greeted || x.reply.Welcome?, SessionAfter(v, x), TxnAfter(v, x), v.published + PublishedBy(v, x))
  }

  ghost function ViewOf(xs: seq<Exchange>): View {
    Replay(ViewStep, NOTHING_SAID, xs)
  }

  function ModeOf(v: View): Mode {
    if !v.greeted then Greeting
    else if v.session == None then Idle
    else if v.txn == None then InSession(v.session.value)
    else
      var t := v.txn.value;
      InTransaction(v.session.value, Txn(v.session.value.path, t.base, t.overlay), t.stuck)
  }

  /** The daemon's mode is what the view says it is; an ended connection holds none to compare. */
  ghost predicate ModeAgrees(c: Conn, v: View) {
    && (c.mode.Finished? || c.mode == ModeOf(v))
    && (!v.greeted ==> v.session == None)
    && (v.session == None ==> v.txn == None)
  }

  /** The view after a step that said one thing, or nothing. */
  function Heard(v: View, said: seq<Exchange>): View
    requires |said| <= 1
  {
    if said == [] then v else ViewStep(v, said[0])
  }

  function PublishedIn(v: View, said: seq<Exchange>): seq<Effect>
    requires |said| <= 1
  {
    if said == [] then [] else PublishedBy(v, said[0])
  }

  // ---------------------------------------------------------------------------------------------
  // Every step keeps the modes in agreement

  lemma AnswerAgrees(w: World, c: Conn, x: Exchange, whenSent: Mode, whenFailed: Mode, v: View)
    requires ModeAgrees(c.(mode := whenSent), v)
    requires whenFailed.Finished? || whenFailed == whenSent
    ensures ModeAgrees(Answer(w, c, x, whenSent, whenFailed).after, v)
  {
  }

  lemma GreetingAgrees(w: World, c: Conn, read: Result<Text, FrameError>, v: View)
    requires c.mode == Greeting && ModeAgrees(c, v)
    ensures var s := GreetingStep(w, c, read);
            ModeAgrees(s.after, Heard(v, s.said))
  {
  }

  lemma BeginAgrees(w: World, c: Conn, session: Session, body: Text, request: Request, v: View)
    requires c.mode == InSession(session) && ModeAgrees(c, v)
    ensures var s := BeginStep(w, c, session, body, request);
            ModeAgrees(s.after, Heard(v, s.said))
  {
  }

  /** Opening a session changes the slot only when its reply says so, and then to the catalogued target. */
  lemma OpenSessionReply(w: World, slot: SlotState, store: Store, request: Request, version: nat)
    ensures var d := OpenSessionOf(w, slot, store, request, version);
            && d.verdict.Send? && d.overlay == None
            && if d.target == None then
                 && d.slot == slot && (d.verdict.reply.Refusal? || d.verdict.reply.Trouble?)
                 && (d.verdict.reply.Trouble? ==>
                       !d.verdict.reply.why.CommitRefused? && !d.verdict.reply.why.NoStatement?)
               else
                 && slot.session == None && request.database.Some? && d.slot.session.Some?
                 && d.slot.session.value.name == request.database.value
                 && d.slot.session.value.path == d.target.value
                 && d.verdict.reply == Accepted(version, request.requestId, SessionOpened(d.slot.session.value.id))
  {
  }

  /** Opening a session is answered with what became of it. */
  lemma ServesOpen(w: World, c: Conn, session: Option<Session>, body: Text, request: Request)
    requires request.operation.OpenSession?
    ensures var d := OpenSessionOf(w, SlotState(session, c.next), c.store, request, c.version);
            && d.verdict.Send?
            && ServeStep(w, c, session, body, request) ==
               Answer(w, c.(next := d.slot.next, store := d.store),
                      Exchange(Some(body), Some(request), d.verdict.reply, d.target, None),
                      Resting(d.slot.session), Finished(TransportFailed))
  {
    OpenSessionReply(w, SlotState(session, c.next), c.store, request, c.version);
  }

  lemma OpenAgrees(w: World, c: Conn, session: Option<Session>, body: Text, request: Request, v: View)
    requires c.mode == Resting(session) && ModeAgrees(c, v) && request.operation.OpenSession?
    ensures var s := ServeStep(w, c, session, body, request);
            ModeAgrees(s.after, Heard(v, s.said))
  {
    var slot := SlotState(session, c.next);
    var d := OpenSessionOf(w, slot, c.store, request, c.version);
    ServesOpen(w, c, session, body, request);
    OpenSessionReply(w, slot, c.store, request, c.version);
    var x := Exchange(Some(body), Some(request), d.verdict.reply, d.target, None);
    var c' := c.(next := d.slot.next, store := d.store);
    AnswerAgrees(w, c', x, Resting(d.slot.session), Finished(TransportFailed), ViewStep(v, x));
  }

  /** A statement is answered with what became of it, in the session it was for. */
  lemma ServesQuery(w: World, c: Conn, session: Session, body: Text, request: Request)
    requires request.operation.Query? && ResolveOf(Some(session), request.sessionId).Ok? && request.statement.Some?
    ensures var one := RunOneOf(w, c.store, session.path, request.statement.value, c.version, request.requestId);
            ServeStep(w, c, Some(session), body, request) ==
            Answer(w, c.(store := one.store), Exchange(Some(body), Some(request), one.reply, None, one.overlay),
                   InSession(session), Finished(TransportFailed))
  {
  }

  /** A statement's reply says what it published: an envelope or the row ceiling, and no other. */
  lemma OneRunReply(w: World, store: Store, path: string, statement: string, version: nat, id: string)
    ensures var one := RunOneOf(w, store, path, statement, version, id);
            if one.overlay.Some? then one.reply.RowLimit? || (one.reply.Accepted? && one.reply.payload.Envelope?)
            else one.reply.Diagnostic? || one.reply.Trouble?
  {
  }

  lemma QueryAgrees(w: World, c: Conn, session: Session, body: Text, request: Request, v: View)
    requires c.mode == InSession(session) && ModeAgrees(c, v)
    requires request.operation.Query? && ResolveOf(Some(session), request.sessionId).Ok? && request.statement.Some?
    ensures var s := ServeStep(w, c, Some(session), body, request);
            ModeAgrees(s.after, Heard(v, s.said))
  {
    var one := RunOneOf(w, c.store, session.path, request.statement.value, c.version, request.requestId);
    var x := Exchange(Some(body), Some(request), one.reply, None, one.overlay);
    ServesQuery(w, c, session, body, request);
    OneRunReply(w, c.store, session.path, request.statement.value, c.version, request.requestId);
    assert ModeOf(ViewStep(v, x)) == c.mode;
    AnswerAgrees(w, c.(store := one.store), x, InSession(session), Finished(TransportFailed), ViewStep(v, x));
  }

  /** Requests that are answered without the Engine: the plain ones, and those that are refused. */
  predicate NeedsNoEngine(session: Option<Session>, request: Request) {
    match request.operation
    case OpenSession => false
    case Query => ResolveOf(session, request.sessionId).Err? || request.statement == None
    case Begin => ResolveOf(session, request.sessionId).Err?
    case _ => true
  }

  lemma PlainAgrees(w: World, c: Conn, session: Option<Session>, body: Text, request: Request, v: View)
    requires c.mode == Resting(session) && ModeAgrees(c, v) && NeedsNoEngine(session, request)
    ensures var s := ServeStep(w, c, session, body, request);
            ModeAgrees(s.after, Heard(v, s.said))
  {
  }

  lemma ServeAgrees(w: World, c: Conn, session: Option<Session>, body: Text, request: Request, v: View)
    requires c.mode == Resting(session) && ModeAgrees(c, v)
    ensures var s := ServeStep(w, c, session, body, request);
            ModeAgrees(s.after, Heard(v, s.said))
  {
    if NeedsNoEngine(session, request) {
      PlainAgrees(w, c, session, body, request, v);
    } else {
      match request.operation
      case OpenSession => OpenAgrees(w, c, session, body, request, v);
      case Query => QueryAgrees(w, c, session.value, body, request, v);
      case Begin => BeginAgrees(w, c, session.value, body, request, v);
    }
  }

  lemma RequestAgrees(w: World, c: Conn, session: Option<Session>, read: Result<Text, FrameError>, v: View)
    requires c.mode == Resting(session) && ModeAgrees(c, v)
    ensures var s := RequestStep(w, c, session, read);
            ModeAgrees(s.after, Heard(v, s.said))
  {
    if read.Ok? {
      match DecodeRequest(w.parse(read.value), {})
      case Err(_) =>
      case Ok(request) => ServeAgrees(w, c, session, read.value, request, v);
    }
  }

  lemma CommitAgrees(w: World, c: Conn, body: Text, request: Request, v: View)
    requires c.mode.InTransaction? && ModeAgrees(c, v)
    ensures var s := CommitStep(w, c, c.mode, body, request);
            ModeAgrees(s.after, Heard(v, s.said))
  {
  }

  lemma StatementAgrees(w: World, c: Conn, body: Text, request: Request, statement: string, v: View)
    requires c.mode.InTransaction? && ModeAgrees(c, v)
    ensures var s := StatementStep(w, c, c.mode, body, request, statement);
            ModeAgrees(s.after, Heard(v, s.said))
  {
  }

  lemma RegionRequestAgrees(w: World, c: Conn, body: Text, request: Request, v: View)
    requires c.mode.InTransaction? && ModeAgrees(c, v)
    ensures var s := RegionRequest(w, c, c.mode, body, request);
            ModeAgrees(s.after, Heard(v, s.said))
  {
    match request.operation
    case Commit => CommitAgrees(w, c, body, request, v);
    case Query =>
      if request.statement.Some? {
        StatementAgrees(w, c, body, request, request.statement.value, v);
      }
    case _ =>
  }

  lemma RegionAgrees(w: World, c: Conn, read: Result<Text, FrameError>, v: View)
    requires c.mode.InTransaction? && ModeAgrees(c, v)
    ensures var s := RegionStep(w, c, c.mode, read);
            ModeAgrees(s.after, Heard(v, s.said))
  {
    if read.Ok? {
      match DecodeRequest(w.parse(read.value), c.mode.stuck)
      case Err(_) =>
      case Ok(request) => RegionRequestAgrees(w, c, read.value, request, v);
    }
  }

  lemma NextAgrees(w: World, c: Conn, v: View)
    requires !c.mode.Finished? && ModeAgrees(c, v)
    ensures var s := Next(w, c);
            ModeAgrees(s.after, Heard(v, s.said))
  {
    var d := FrameAt(c.wire, w.maxFrameBytes);
    var c' := c.(wire := d.rest);
    match c.mode
    case Greeting => GreetingAgrees(w, c', d.result, v);
    case Idle => RequestAgrees(w, c', None, d.result, v);
    case InSession(session) => RequestAgrees(w, c', Some(session), d.result, v);
    case InTransaction(_, _, _) => RegionAgrees(w, c', d.result, v);
  }

  // ---------------------------------------------------------------------------------------------
  // Every step publishes what is heard of it

  lemma SettleAdds(w: World, ran: Ran, version: nat, id: string)
    ensures var one := SettleOne(w, ran, version, id);
            Adds(ran.store, one.store, if one.overlay.Some? then Effects(ran.txn.path, one.overlay.value) else [])
  {
    CommitAdds(w.oracle, ran.store, ran.txn);
  }

  lemma OneRunAdds(w: World, store: Store, path: string, statement: string, version: nat, id: string)
    ensures var one := RunOneOf(w, store, path, statement, version, id);
            Adds(store, one.store, if one.overlay.Some? then Effects(path, one.overlay.value) else [])
  {
    var begun := BeginOf(w.oracle, store, path);
    BeginAdds(w.oracle, store, path);
    if w.oracle.cypher(statement) == None && begun.txn.Some? {
      var ran := RunOf(w.oracle, begun.store, begun.txn.value, statement);
      var one := SettleOne(w, ran, version, id);
      RunAdds(w.oracle, begun.store, begun.txn.value, statement);
      SettleAdds(w, ran, version, id);
      var effects := if one.overlay.Some? then Effects(path, one.overlay.value) else [];
      AddsTwice(store, begun.store, ran.store, [], []);
      AddsTwice(store, ran.store, one.store, [], effects);
      assert [] + effects == effects && one == RunOneOf(w, store, path, statement, version, id);
    }
  }

  lemma NothingAdded(store: Store)
    ensures Adds(store, store, [])
  {
  }

  /** Opening a session makes two calls at most. */
  lemma OpenSessionTicks(w: World, slot: SlotState, store: Store, request: Request, version: nat)
    ensures var after := OpenSessionOf(w, slot, store, request, version).store;
            after == store || after == Ticked(w.oracle, store) || after == Ticked(w.oracle, Ticked(w.oracle, store))
  {
  }

  lemma OpenSessionAdds(w: World, slot: SlotState, store: Store, request: Request, version: nat)
    ensures Adds(store, OpenSessionOf(w, slot, store, request, version).store, [])
  {
    OpenSessionTicks(w, slot, store, request, version);
    NothingAdded(store);
    TickedAdds(w.oracle, store);
    TickedTwiceAdds(w.oracle, store);
  }

  lemma OpenAdds(w: World, c: Conn, session: Option<Session>, body: Text, request: Request, v: View)
    requires request.operation.OpenSession?
    ensures var s := ServeStep(w, c, session, body, request);
            Adds(c.store, s.after.store, PublishedIn(v, s.said))
  {
    var slot := SlotState(session, c.next);
    OpenSessionAdds(w, slot, c.store, request, c.version);
    OpenSessionReply(w, slot, c.store, request, c.version);
  }

  /** What a statement's reply is heard to have published, and the store it left. */
  lemma QueryHeard(w: World, c: Conn, session: Session, body: Text, request: Request, v: View)
    requires c.mode == InSession(session) && ModeAgrees(c, v)
    requires request.operation.Query? && ResolveOf(Some(session), request.sessionId).Ok? && request.statement.Some?
    ensures var s := ServeStep(w, c, Some(session), body, request);
            var one := RunOneOf(w, c.store, session.path, request.statement.value, c.version, request.requestId);
            && s.after.store == one.store
            && PublishedIn(v, s.said) == if one.overlay.Some? then Effects(session.path, one.overlay.value) else []
  {
  }

  lemma QueryAdds(w: World, c: Conn, session: Session, body: Text, request: Request, v: View)
    requires c.mode == InSession(session) && ModeAgrees(c, v)
    requires request.operation.Query? && ResolveOf(Some(session), request.sessionId).Ok? && request.statement.Some?
    ensures var s := ServeStep(w, c, Some(session), body, request);
            Adds(c.store, s.after.store, PublishedIn(v, s.said))
  {
    QueryHeard(w, c, session, body, request, v);
    OneRunAdds(w, c.store, session.path, request.statement.value, c.version, request.requestId);
  }

  lemma PlainAdds(w: World, c: Conn, session: Option<Session>, body: Text, request: Request, v: View)
    requires c.mode == Resting(session) && ModeAgrees(c, v) && NeedsNoEngine(session, request)
    ensures var s := ServeStep(w, c, session, body, request);
            s.after.store == c.store && PublishedIn(v, s.said) == []
  {
  }

  lemma BeginHeard(w: World, c: Conn, session: Session, body: Text, request: Request, v: View)
    requires c.mode == InSession(session) && ModeAgrees(c, v)
    ensures var s := BeginStep(w, c, session, body, request);
            s.after.store == BeginOf(w.oracle, c.store, session.path).store && PublishedIn(v, s.said) == []
  {
  }

  lemma ServeAdds(w: World, c: Conn, session: Option<Session>, body: Text, request: Request, v: View)
    requires c.mode == Resting(session) && ModeAgrees(c, v)
    ensures var s := ServeStep(w, c, session, body, request);
            Adds(c.store, s.after.store, PublishedIn(v, s.said))
  {
    if NeedsNoEngine(session, request) {
      PlainAdds(w, c, session, body, request, v);
      NothingAdded(c.store);
    } else {
      match request.operation
      case OpenSession => OpenAdds(w, c, session, body, request, v);
      case Query => QueryAdds(w, c, session.value, body, request, v);
      case Begin =>
        BeginHeard(w, c, session.value, body, request, v);
        BeginAdds(w.oracle, c.store, session.value.path);
    }
  }

  lemma CommitHeard(w: World, c: Conn, body: Text, request: Request, v: View)
    requires c.mode.InTransaction? && ModeAgrees(c, v)
    ensures var s := CommitStep(w, c, c.mode, body, request);
            var k := CommitOf(w.oracle, c.store, c.mode.txn);
            && s.after.store == k.store
            && PublishedIn(v, s.said) ==
               if k.generation.Some? then Effects(c.mode.txn.path, c.mode.txn.overlay) else []
  {
  }

  lemma StatementHeard(w: World, c: Conn, body: Text, request: Request, statement: string, v: View)
    requires c.mode.InTransaction? && ModeAgrees(c, v)
    ensures var s := StatementStep(w, c, c.mode, body, request, statement);
            && s.after.store == QueryInRegionOf(w, c.store, c.mode.txn, statement, c.version, request.requestId).store
            && PublishedIn(v, s.said) == []
  {
  }

  lemma StatementAdds(w: World, c: Conn, body: Text, request: Request, statement: string, v: View)
    requires c.mode.InTransaction? && ModeAgrees(c, v)
    ensures var s := StatementStep(w, c, c.mode, body, request, statement);
            Adds(c.store, s.after.store, PublishedIn(v, s.said))
  {
    StatementHeard(w, c, body, request, statement, v);
    RunAdds(w.oracle, c.store, c.mode.txn, statement);
  }

  lemma RegionRequestAdds(w: World, c: Conn, body: Text, request: Request, v: View)
    requires c.mode.InTransaction? && ModeAgrees(c, v)
    ensures var s := RegionRequest(w, c, c.mode, body, request);
            Adds(c.store, s.after.store, PublishedIn(v, s.said))
  {
    match request.operation
    case Commit =>
      CommitHeard(w, c, body, request, v);
      CommitAdds(w.oracle, c.store, c.mode.txn);
    case Query =>
      if request.statement.Some? {
        StatementAdds(w, c, body, request, request.statement.value, v);
      }
    case _ =>
  }

  lemma RequestAdds(w: World, c: Conn, session: Option<Session>, read: Result<Text, FrameError>, v: View)
    requires c.mode == Resting(session) && ModeAgrees(c, v)
    ensures var s := RequestStep(w, c, session, read);
            Adds(c.store, s.after.store, PublishedIn(v, s.said))
  {
    if read.Ok? && DecodeRequest(w.parse(read.value), {}).Ok? {
      ServeAdds(w, c, session, read.value, DecodeRequest(w.parse(read.value), {}).value, v);
    }
  }

  lemma NextAdds(w: World, c: Conn, v: View)
    requires !c.mode.Finished? && ModeAgrees(c, v)
    ensures var s := Next(w, c);
            Adds(c.store, s.after.store, PublishedIn(v, s.said))
  {
    var d := FrameAt(c.wire, w.maxFrameBytes);
    var c' := c.(wire := d.rest);
    match c.mode
    case Greeting =>
    case Idle => RequestAdds(w, c', None, d.result, v);
    case InSession(session) => RequestAdds(w, c', Some(session), d.result, v);
    case InTransaction(_, _, stuck) =>
      if d.result.Ok? && DecodeRequest(w.parse(d.result.value), stuck).Ok? {
        RegionRequestAdds(w, c', d.result.value, DecodeRequest(w.parse(d.result.value), stuck).value, v);
      }
  }

  // ---------------------------------------------------------------------------------------------
  // Whole conversations

  lemma HeardIsReplay(v: View, said: seq<Exchange>)
    requires |said| <= 1
    ensures Heard(v, said) == Replay(ViewStep, v, said)
  {
  }

  ghost predicate Agrees(c: Conn, v: View, start: Store) {
    ModeAgrees(c, v) && Adds(start, c.store, v.published)
  }

  lemma MachineAgrees(w: World, c: Conn, v: View, start: Store)
    requires Agrees(c, v, start)
    ensures Agrees(Machine(w)(c).after, Replay(ViewStep, v, Machine(w)(c).said), start)
  {
    if !c.mode.Finished? {
      var s := Next(w, c);
      NextAgrees(w, c, v);
      NextAdds(w, c, v);
      AddsTwice(start, c.store, s.after.store, v.published, PublishedIn(v, s.said));
      assert v.published + [] == v.published;
      HeardIsReplay(v, s.said);
    }
  }

  /**
   What the daemon believes of a transaction is so. At every point of every conversation, whatever
   the Engine, the transport and other connections do, the transcript so far determines the mode the
   daemon is in, the session and the uncommitted changes it holds, and every change it has published;
   and nothing published is ever taken back.
   */
  lemma TranscriptDeterminesState(w: World, wire: seq<Signal>, sent: Sent, start: Store, n: nat)
    ensures Agrees(After(Machine(w), Opening(wire, sent, start), n),
                   ViewOf(SaidBy(Machine(w), Opening(wire, sent, start), n)), start)
  {
    var agrees := (c: Conn, v: View) => Agrees(c, v, start);
    forall c, v ensures KeepsAgreement(Machine(w), ViewStep, agrees, c, v) {
      if agrees(c, v) {
        MachineAgrees(w, c, v, start);
      }
    }
    StepsAgree(Machine(w), ViewStep, agrees, Opening(wire, sent, start), NOTHING_SAID, n);
  }

  /**
   Commit-only durability: after any conversation, what this connection has added to the store is,
   in order, exactly what its transcript says was committed. A region that ends in any other way,
   by a close, a cut or over-long frame, a failed send, a rollback or a refused commit, adds
   nothing, and a commit stands even if its reply was never delivered.
   */
  lemma CommitOnlyDurability(w: World, wire: seq<Signal>, sent: Sent, start: Store)
    ensures var c := Opening(wire, sent, start);
            Adds(start, Run(w, c).store, ViewOf(Transcript(w, c)).published)
  {
    var c := Opening(wire, sent, start);
    TranscriptDeterminesState(w, wire, sent, start, Enough(c));
    ConversationEnds(w, c);
  }
}

/**
 What single replies promise about the store, what a region leaves alone, which identifiers are
 minted and which stay outstanding, and what the client cannot notice.
 */
module Outcomes {
  import opened Wrappers
  import opened Json
  import opened Utf8
  import opened Frame
  import opened Chunking
  import opened FrameIO
  import opened Message
  import opened Engine
  import opened Session
  import opened Automaton
  import opened Protocol
  import opened Transcripts

  // ---------------------------------------------------------------------------------------------
  // Auto-commit

  /** Nothing, or the one commit of this connection that a statement led to. */
  function Since(published: Option<Publication>): seq<Publication> {
    match published
    case None => []
    case Some(p) => [p]
  }

  /** What a statement outside a region may have published, as its reply tells it. */
  ghost predicate Tells(one: OneRun, path: string, published: Option<Publication>) {
    match one.reply
    case Accepted(_, _, Envelope(_, generation, Some(writes))) =>
      writes != [] && published == Some(Publication(path, generation, writes, true))
    case Accepted(_, _, _) => published == None
    case RowLimit(_, _) =>
      published.Some? ==> published.value.writes != [] && published.value.path == path && published.value.own
    case _ => published == None
  }

  lemma SettleTells(w: World, ran: Ran, version: nat, id: string) returns (published: Option<Publication>)
    ensures var one := SettleOne(w, ran, version, id);
            && Own(one.store.journal) == Own(ran.store.journal) + Since(published)
            && Tells(one, ran.txn.path, published)
    ensures published.Some? ==>
              && ran.txn.overlay != []
              && CommitOf(w.oracle, ran.store, ran.txn).generation == Some(published.value.generation)
  {
    var k := CommitOf(w.oracle, ran.store, ran.txn);
    OwnCommit(w.oracle, ran.store, ran.txn);
    if ran.result.Rows? && ran.txn.overlay != [] && k.generation.Some? {
      published := Some(Publication(ran.txn.path, k.generation.value, ran.txn.overlay, true));
    } else {
      published := None;
      assert Own(ran.store.journal) + [] == Own(ran.store.journal);
    }
  }

  predicate Unwritten(reply: Reply) {
    reply.Accepted? && reply.payload.Envelope? && reply.payload.writes == None
  }

  /** An ok reply that wrote nothing states the generation the transaction was begun at. */
  lemma UnwrittenStatesBase(w: World, store: Store, path: string, statement: string, version: nat, id: string)
    requires Unwritten(RunOneOf(w, store, path, statement, version, id).reply)
    ensures BeginOf(w.oracle, store, path).txn.Some?
    ensures RunOneOf(w, store, path, statement, version, id).reply.payload.generation ==
            BeginOf(w.oracle, store, path).txn.value.base
  {
  }

  /**
   Auto-commit replies agree with the store: outside a region an ok reply carries a write summary
   exactly when the statement's commit was published, with the generation that commit returned, and
   otherwise the generation it was begun at; an error reply means nothing was published, except the
   row ceiling's, which is reported after. The generation of a commit is above the one begun at.
   */
  lemma AutoCommitAgrees(w: World, store: Store, path: string, statement: string, version: nat, id: string)
    returns (published: Option<Publication>)
    ensures var one := RunOneOf(w, store, path, statement, version, id);
            && Own(one.store.journal) == Own(store.journal) + Since(published)
            && Tells(one, path, published)
            && (Unwritten(one.reply) ==>
                  && BeginOf(w.oracle, store, path).txn.Some?
                  && one.reply.payload.generation == BeginOf(w.oracle, store, path).txn.value.base)
            && (Advancing(store.journal) && published.Some? ==>
                  && BeginOf(w.oracle, store, path).txn.Some?
                  && BeginOf(w.oracle, store, path).txn.value.base < published.value.generation)
  {
    if Unwritten(RunOneOf(w, store, path, statement, version, id).reply) {
      UnwrittenStatesBase(w, store, path, statement, version, id);
    }
    var begun := BeginOf(w.oracle, store, path);
    OwnTicked(w.oracle, store);
    if w.oracle.cypher(statement) == None && begun.txn.Some? {
      OwnTicked(w.oracle, begun.store);
      published := SettleTells(w, RunOf(w.oracle, begun.store, begun.txn.value, statement), version, id);
      if Advancing(store.journal) {
        CommitIsNewer(w.oracle, store, path, statement);
      }
    } else {
      published := None;
      assert Own(store.journal) + [] == Own(store.journal);
    }
  }

  /**
   Over the row ceiling: the Engine accepts the statement, begins, runs it to a result that changed
   something and has too many rows, and then commits.
   */
  predicate CommitsOverCeiling(w: World, tick: nat, statement: string) {
    && w.oracle.cypher(statement) == None
    && w.oracle.begin(tick).MayBegin?
    && var ran := w.oracle.run(tick + 1, [], statement);
       && ran.overlay != [] && ran.result.Rows? && |ran.result.rows| > w.maxResultRows
       && w.oracle.commit(tick + 2).MayCommit?
  }

  lemma SettleOverCeiling(w: World, ran: Ran, version: nat, id: string)
    ensures var one := SettleOne(w, ran, version, id);
            && (!one.reply.Accepted? && Own(one.store.journal) != Own(ran.store.journal) <==>
                  && ran.txn.overlay != [] && ran.result.Rows? && |ran.result.rows| > w.maxResultRows
                  && w.oracle.commit(ran.store.tick).MayCommit?)
            && (one.reply.RowLimit? ==>
                  (Own(one.store.journal) == Own(ran.store.journal) <==> one.overlay == Some([])))
  {
    OwnCommit(w.oracle, ran.store, ran.txn);
    var k := CommitOf(w.oracle, ran.store, ran.txn);
    assert ran.txn.overlay != [] && k.generation.Some? ==> |Own(k.store.journal)| == |Own(ran.store.journal)| + 1;
  }

  /**
   The row ceiling's error is the one error that can follow a commit: an error reply comes with a
   publication of this connection's exactly when the Engine commits a result over the ceiling.
   */
  lemma RowLimitAfterCommit(w: World, store: Store, path: string, statement: string, version: nat, id: string)
    ensures var one := RunOneOf(w, store, path, statement, version, id);
            && (!one.reply.Accepted? && Own(one.store.journal) != Own(store.journal) <==>
                CommitsOverCeiling(w, store.tick, statement))
            && (CommitsOverCeiling(w, store.tick, statement) ==> one.reply == RowLimit(version, id))
            && (one.reply.RowLimit? ==> (Own(one.store.journal) == Own(store.journal) <==> one.overlay == Some([])))
  {
    var begun := BeginOf(w.oracle, store, path);
    OwnTicked(w.oracle, store);
    if w.oracle.cypher(statement) == None && begun.txn.Some? {
      OwnTicked(w.oracle, begun.store);
      SettleOverCeiling(w, RunOf(w.oracle, begun.store, begun.txn.value, statement), version, id);
    }
  }

  // ---------------------------------------------------------------------------------------------
  // Regions

  /** The slot is as it was, and the region either goes on in its session or has ended. */
  ghost predicate SlotKept(m: Mode, c: Conn, after: Conn) {
    && m.InTransaction?
    && after.next == c.next
    && match after.mode
       case InSession(session) => session == m.session
       case InTransaction(session, txn, _) =>
         session == m.session && txn.base == m.txn.base && txn.path == m.txn.path
       case Finished(_) => true
       case _ => false
  }

  lemma StatementKeepsSlot(w: World, c: Conn, body: Text, request: Request, statement: string)
    requires c.mode.InTransaction?
    ensures SlotKept(c.mode, c, StatementStep(w, c, c.mode, body, request, statement).after)
  {
  }

  lemma RegionRequestKeepsSlot(w: World, c: Conn, body: Text, request: Request)
    requires c.mode.InTransaction?
    ensures SlotKept(c.mode, c, RegionRequest(w, c, c.mode, body, request).after)
  {
    match request.operation
    case Query =>
      if request.statement.Some? {
        StatementKeepsSlot(w, c, body, request, request.statement.value);
      }
    case _ =>
  }

  /** A region leaves the slot alone: the session it ends with is the one it was begun in. */
  lemma RegionKeepsSlot(w: World, c: Conn)
    requires c.mode.InTransaction?
    ensures SlotKept(c.mode, c, Next(w, c).after)
  {
    var d := FrameAt(c.wire, w.maxFrameBytes);
    if d.result.Ok? && DecodeRequest(w.parse(d.result.value), c.mode.stuck).Ok? {
      var request := DecodeRequest(w.parse(d.result.value), c.mode.stuck).value;
      RegionRequestKeepsSlot(w, c.(wire := d.rest), d.result.value, request);
    }
  }

  // ---------------------------------------------------------------------------------------------
  // How conversations end

  /**
   Replies whose loss the daemon does not notice. A commit, a rollback or a shutdown stands whether
   or not the client hears of it; the others are refusals and errors that change nothing.
   */
  predicate LossIgnored(mode: Mode, x: Exchange) {
    if mode.InTransaction? then
      x.request.Some? && (x.request.value.operation.Commit? || x.request.value.operation.Rollback?
                          || (x.request.value.operation.Query? && x.request.value.statement == None))
    else
      x.reply.Unwelcome?
      || (x.request == None && x.reply.Refusal?)
      || (x.request.Some? && x.request.value.operation.Shutdown?)
      || (x.request.Some? && x.request.value.operation.Begin? && x.reply.Trouble?)
  }

  /** What a failed send does: it ends the conversation exactly when its loss is not ignored. */
  ghost predicate LossCounts(w: World, c: Conn, s: Move) {
    s.said != [] && s.said[0].body.Some? && Saying(w, c.sent, s.said[0].reply).result.Err? ==>
      (s.after.mode == Finished(TransportFailed) <==> !LossIgnored(c.mode, s.said[0]))
  }

  /** What a request is dispatched to depends on its operation first. */
  lemma VerdictOf(w: World, slot: SlotState, store: Store, request: Request, version: nat)
    ensures var verdict := DispatchOf(w, slot, store, request, version).verdict;
            && (verdict.StartTransaction? ==> request.operation.Begin?)
            && (verdict.StopDaemon? <==> request.operation.Shutdown?)
            && (verdict.Send? ==> (request.operation.Begin? ==> verdict.reply.Refusal?) && !verdict.reply.Unwelcome?)
  {
  }

  lemma BeginLosses(w: World, c: Conn, session: Option<Session>, held: Session, body: Text, request: Request)
    requires c.mode == Resting(session) && request.operation.Begin?
    ensures LossCounts(w, c, BeginStep(w, c, held, body, request))
  {
  }

  lemma ServeLosses(w: World, c: Conn, session: Option<Session>, body: Text, request: Request)
    requires c.mode == Resting(session)
    ensures LossCounts(w, c, ServeStep(w, c, session, body, request))
  {
    var d := DispatchOf(w, SlotState(session, c.next), c.store, request, c.version);
    VerdictOf(w, SlotState(session, c.next), c.store, request, c.version);
    match d.verdict
    case Send(_) =>
    case StopDaemon(_) =>
    case StartTransaction(held) => BeginLosses(w, c, session, held, body, request);
  }

  lemma RegionRequestLosses(w: World, c: Conn, body: Text, request: Request)
    requires c.mode.InTransaction?
    ensures LossCounts(w, c, RegionRequest(w, c, c.mode, body, request))
  {
  }

  lemma RegionLosses(w: World, c: Conn, read: Result<Text, FrameError>)
    requires c.mode.InTransaction?
    ensures LossCounts(w, c, RegionStep(w, c, c.mode, read))
  {
    if read.Ok? && DecodeRequest(w.parse(read.value), c.mode.stuck).Ok? {
      RegionRequestLosses(w, c, read.value, DecodeRequest(w.parse(read.value), c.mode.stuck).value);
    }
  }

  lemma RequestLosses(w: World, c: Conn, session: Option<Session>, read: Result<Text, FrameError>)
    requires c.mode == Resting(session)
    ensures LossCounts(w, c, RequestStep(w, c, session, read))
  {
    if read.Ok? && DecodeRequest(w.parse(read.value), {}).Ok? {
      ServeLosses(w, c, session, read.value, DecodeRequest(w.parse(read.value), {}).value);
    }
  }

  lemma LossesThatEnd(w: World, c: Conn)
    requires !c.mode.Finished?
    ensures LossCounts(w, c, Next(w, c))
  {
    var d := FrameAt(c.wire, w.maxFrameBytes);
    var c' := c.(wire := d.rest);
    match c.mode
    case Greeting =>
    case Idle => RequestLosses(w, c', None, d.result);
    case InSession(session) => RequestLosses(w, c', Some(session), d.result);
    case InTransaction(_, _, _) => RegionLosses(w, c', d.result);
  }

  function LastReply(last: Option<Reply>, x: Exchange): Option<Reply> {
    Some(x.reply)
  }

  /** A conversation is refused, or shut down, exactly when that is the last thing that was said. */
  ghost predicate EndsAsSaid(c: Conn, last: Option<Reply>) {
    && ((last.Some? && last.value.Unwelcome?) <==> c.mode == Finished(HandshakeRefused))
    && ((last.Some? && last.value.Accepted? && last.value.payload.Stopping?) <==> c.mode == Finished(ShutdownRequested))
  }

  lemma QueryEndsAsSaid(w: World, c: Conn, session: Option<Session>, body: Text, request: Request)
    requires request.operation.Query?
    ensures var s := ServeStep(w, c, session, body, request);
            EndsAsSaid(s.after, Some(s.said[0].reply))
  {
    if session.Some? && request.statement.Some? {
      OneRunReply(w, c.store, session.value.path, request.statement.value, c.version, request.requestId);
    }
  }

  lemma OpenEndsAsSaid(w: World, c: Conn, session: Option<Session>, body: Text, request: Request)
    requires request.operation.OpenSession?
    ensures var s := ServeStep(w, c, session, body, request);
            EndsAsSaid(s.after, Some(s.said[0].reply))
  {
    OpenSessionReply(w, SlotState(session, c.next), c.store, request, c.version);
  }

  lemma ServeEndsAsSaid(w: World, c: Conn, session: Option<Session>, body: Text, request: Request)
    ensures var s := ServeStep(w, c, session, body, request);
            EndsAsSaid(s.after, Some(s.said[0].reply))
  {
    match request.operation
    case Query => QueryEndsAsSaid(w, c, session, body, request);
    case OpenSession => OpenEndsAsSaid(w, c, session, body, request);
    case _ =>
  }

  lemma StatementEndsAsSaid(w: World, c: Conn, body: Text, request: Request, statement: string)
    requires c.mode.InTransaction?
    ensures var s := StatementStep(w, c, c.mode, body, request, statement);
            EndsAsSaid(s.after, Some(s.said[0].reply))
  {
  }

  lemma RegionEndsAsSaid(w: World, c: Conn, body: Text, request: Request)
    requires c.mode.InTransaction?
    ensures var s := RegionRequest(w, c, c.mode, body, request);
            EndsAsSaid(s.after, Some(s.said[0].reply))
  {
    match request.operation
    case Query =>
      if request.statement.Some? {
        StatementEndsAsSaid(w, c, body, request, request.statement.value);
      }
    case _ =>
  }

  lemma RequestEndsAsSaid(
    w: World, c: Conn, session: Option<Session>, read: Result<Text, FrameError>, last: Option<Reply>)
    requires !c.mode.Finished? && EndsAsSaid(c, last)
    ensures var s := RequestStep(w, c, session, read);
            EndsAsSaid(s.after, if s.said == [] then last else Some(s.said[0].reply))
  {
    if read.Ok? && DecodeRequest(w.parse(read.value), {}).Ok? {
      ServeEndsAsSaid(w, c, session, read.value, DecodeRequest(w.parse(read.value), {}).value);
    }
  }

  lemma NextEndsAsSaid(w: World, c: Conn, last: Option<Reply>)
    requires !c.mode.Finished? && EndsAsSaid(c, last)
    ensures var s := Next(w, c);
            EndsAsSaid(s.after, if s.said == [] then last else Some(s.said[0].reply))
  {
    var d := FrameAt(c.wire, w.maxFrameBytes);
    var c' := c.(wire := d.rest);
    match c.mode
    case Greeting =>
    case Idle => RequestEndsAsSaid(w, c', None, d.result, last);
    case InSession(session) => RequestEndsAsSaid(w, c', Some(session), d.result, last);
    case InTransaction(_, _, stuck) =>
      if d.result.Ok? && DecodeRequest(w.parse(d.result.value), stuck).Ok? {
        RegionEndsAsSaid(w, c', d.result.value, DecodeRequest(w.parse(d.result.value), stuck).value);
      }
  }

  lemma MachineEndsAsSaid(w: World, c: Conn, last: Option<Reply>)
    requires EndsAsSaid(c, last)
    ensures EndsAsSaid(Machine(w)(c).after, Replay(LastReply, last, Machine(w)(c).said))
  {
    var said := Machine(w)(c).said;
    if said != [] {
      assert said[1..] == [];
    }
    if !c.mode.Finished? {
      NextEndsAsSaid(w, c, last);
    }
  }

  /** The last reply of a conversation tells a refused handshake and a shutdown from every other end. */
  lemma LastReplyTellsTheEnd(w: World, wire: seq<Signal>, sent: Sent, store: Store)
    ensures var c := Opening(wire, sent, store);
            EndsAsSaid(Run(w, c), Replay(LastReply, None, Transcript(w, c)))
  {
    var c := Opening(wire, sent, store);
    forall c', last ensures KeepsAgreement(Machine(w), LastReply, EndsAsSaid, c', last) {
      if EndsAsSaid(c', last) {
        MachineEndsAsSaid(w, c', last);
      }
    }
    StepsAgree(Machine(w), LastReply, EndsAsSaid, c, None, Enough(c));
    ConversationEnds(w, c);
  }

  // ---------------------------------------------------------------------------------------------
  // Outstanding identifiers

  /** A query of a region that carried no statement. Its reply was sent; its identifier stays. */
  predicate Statementless(x: Exchange) {
    x.reply.Trouble? && x.reply.why.NoStatement?
  }

  predicate BeginsRegion(x: Exchange) {
    x.reply.Accepted? && x.reply.payload.Began?
  }

  /** Where the current region starts: just after the last accepted `begin`. */
  function RegionStart(xs: seq<Exchange>): (start: nat)
    ensures start <= |xs|
    ensures start > 0 ==> BeginsRegion(xs[start - 1])
    ensures forall i :: start <= i < |xs| ==> !BeginsRegion(xs[i])
  {
    if xs == [] then 0
    else if BeginsRegion(xs[|xs| - 1]) then |xs|
    else RegionStart(xs[..|xs| - 1])
  }

  function StatementlessIds(xs: seq<Exchange>): set<string> {
    set x | x in xs && Statementless(x) :: x.reply.requestId
  }

  lemma StatementlessMore(xs: seq<Exchange>, x: Exchange)
    ensures StatementlessIds(xs + [x]) == StatementlessIds(xs) + if Statementless(x) then {x.reply.requestId} else {}
  {
  }

  lemma StuckAfter(v: View, x: Exchange)
    requires ViewStep(v, x).txn.Some? && !BeginsRegion(x)
    ensures v.txn.Some?
    ensures ViewStep(v, x).txn.value.stuck
         == v.txn.value.stuck + if Statementless(x) then {x.reply.requestId} else {}
  {
  }

  lemma ViewOfMore(xs: seq<Exchange>, x: Exchange)
    ensures ViewOf(xs + [x]) == ViewStep(ViewOf(xs), x)
  {
    ReplayConcat(ViewStep, NOTHING_SAID, xs, [x]);
    assert [x][1..] == [];
  }

  lemma {:induction false} StuckIsStatementless(xs: seq<Exchange>)
    requires ViewOf(xs).txn.Some?
    ensures ViewOf(xs).txn.value.stuck == StatementlessIds(xs[RegionStart(xs)..])
    decreases |xs|
  {
    var before, last := xs[..|xs| - 1], xs[|xs| - 1];
    assert xs == before + [last];
    ViewOfMore(before, last);
    if BeginsRegion(last) {
      assert xs[RegionStart(xs)..] == [];
    } else {
      StuckAfter(ViewOf(before), last);
      StuckIsStatementless(before);
      var start := RegionStart(xs);
      assert xs[start..] == before[start..] + [last];
      StatementlessMore(before[start..], last);
    }
  }

  /**
   The region's outstanding set, as written: at every point of every conversation it is exactly the
   identifiers of the queries without a statement that this region has already answered.
   */
  lemma OutstandingInRegion(w: World, wire: seq<Signal>, sent: Sent, start: Store, n: nat)
    ensures var c := After(Machine(w), Opening(wire, sent, start), n);
            var xs := SaidBy(Machine(w), Opening(wire, sent, start), n);
            c.mode.InTransaction? ==> c.mode.stuck == StatementlessIds(xs[RegionStart(xs)..])
  {
    TranscriptDeterminesState(w, wire, sent, start, n);
    if After(Machine(w), Opening(wire, sent, start), n).mode.InTransaction? {
      StuckIsStatementless(SaidBy(Machine(w), Opening(wire, sent, start), n));
    }
  }

  /** A message that would be accepted is refused in a region for its identifier alone. */
  lemma RegionRefusesStuckIds(document: Option<Json>, stuck: set<string>)
    requires DecodeRequest(document, {}).Ok?
    ensures var request := DecodeRequest(document, {}).value;
            DecodeRequest(document, stuck) ==
            if request.requestId in stuck then Err(RequestIdAbsent) else Ok(request)
  {
  }

  lemma StatementlessStep(w: World, c: Conn, body: Text, request: Request)
    requires c.mode.InTransaction? && FrameAt(c.wire, w.maxFrameBytes).result == Ok(body)
    requires DecodeRequest(w.parse(body), c.mode.stuck) == Ok(request)
    requires request.operation.Query? && request.statement == None
    ensures var s := Next(w, c);
            && s.said == [Plain(body, Some(request), Trouble(c.version, request.requestId, NoStatement))]
            && s.after.mode == c.mode.(stuck := c.mode.stuck + {request.requestId})
            && s.after.version == c.version
  {
  }

  lemma StuckIsRefused(document: Option<Json>, some: set<string>, more: set<string>)
    requires DecodeRequest(document, some).Ok? && DecodeRequest(document, some).value.requestId in more
    ensures DecodeRequest(document, more) == Err(RequestIdAbsent)
  {
  }

  /**
   So an answered identifier is not always reusable in a region. The same query without a statement,
   sent twice, is answered and then refused, although nothing is outstanding in between.
   */
  lemma StatementlessTwice(w: World, c: Conn, body: Text)
    requires c.mode.InTransaction? && Fits(body, w.maxFrameBytes)
    requires c.wire == Octets(Encode(body)) + Octets(Encode(body))
    requires DecodeRequest(w.parse(body), c.mode.stuck).Ok?
    requires var request := DecodeRequest(w.parse(body), c.mode.stuck).value;
             request.operation.Query? && request.statement == None
    ensures var request := DecodeRequest(w.parse(body), c.mode.stuck).value;
            var first := Next(w, c);
            && !first.after.mode.Finished?
            && first.said == [Plain(body, Some(request), Trouble(c.version, request.requestId, NoStatement))]
            && Next(w, first.after).said == [Plain(body, None, Refusal(c.version, None, RequestIdAbsent))]
  {
    var request := DecodeRequest(w.parse(body), c.mode.stuck).value;
    var more := c.mode.stuck + {request.requestId};
    EncodedFrameReads(body, Octets(Encode(body)), w.maxFrameBytes);
    StatementlessStep(w, c, body, request);
    EncodedFrameReads(body, [], w.maxFrameBytes);
    assert Octets(Encode(body)) + [] == Octets(Encode(body));
    StuckIsRefused(w.parse(body), c.mode.stuck, more);
  }

  // ---------------------------------------------------------------------------------------------
  // Session identifiers over a conversation

  function MintedBy(x: Exchange): seq<string> {
    match x.reply
    case Accepted(_, _, SessionOpened(id)) => [id]
    case _ => []
  }

  function MintStep(ids: seq<string>, x: Exchange): seq<string> {
    ids + MintedBy(x)
  }

  ghost predicate MintsInOrder(c: Conn, ids: seq<string>) {
    && c.next == Counter(1, |ids|)
    && forall k :: 0 <= k < |ids| ==> ids[k] == SessionId(Counter(1, k))
  }

  lemma {:induction false} CounterStep(next: nat, k: nat)
    ensures Counter(next, k + 1) == (Counter(next, k) + 1) % U64_LIMIT
    decreases k
  {
    if k == 0 {
    } else {
      CounterStep((next + 1) % U64_LIMIT, k - 1);
    }
  }

  /** A step mints the next identifier and moves the counter on, or does neither. */
  ghost predicate Mints(next: nat, s: Move) {
    var minted := if s.said == [] then [] else MintedBy(s.said[0]);
    || (minted == [] && s.after.next == next)
    || (minted == [SessionId(next)] && s.after.next == (next + 1) % U64_LIMIT)
  }

  lemma OpenSessionMints(w: World, slot: SlotState, store: Store, request: Request, version: nat)
    ensures var d := OpenSessionOf(w, slot, store, request, version);
            && d.verdict.Send?
            && if d.verdict.reply.Accepted? then
                 && d.verdict.reply.payload == SessionOpened(SessionId(slot.next))
                 && d.slot.next == (slot.next + 1) % U64_LIMIT
               else d.slot.next == slot.next
  {
  }

  lemma OpenMints(w: World, c: Conn, session: Option<Session>, body: Text, request: Request)
    requires request.operation.OpenSession?
    ensures Mints(c.next, ServeStep(w, c, session, body, request))
  {
    ServesOpen(w, c, session, body, request);
    OpenSessionMints(w, SlotState(session, c.next), c.store, request, c.version);
  }

  lemma QueryMints(w: World, c: Conn, session: Option<Session>, body: Text, request: Request)
    requires request.operation.Query?
    ensures Mints(c.next, ServeStep(w, c, session, body, request))
  {
  }

  lemma ServeMints(w: World, c: Conn, session: Option<Session>, body: Text, request: Request)
    ensures Mints(c.next, ServeStep(w, c, session, body, request))
  {
    match request.operation
    case OpenSession => OpenMints(w, c, session, body, request);
    case Query => QueryMints(w, c, session, body, request);
    case _ =>
  }

  lemma GreetingMints(w: World, c: Conn, read: Result<Text, FrameError>)
    ensures Mints(c.next, GreetingStep(w, c, read))
  {
  }

  lemma RequestMints(w: World, c: Conn, session: Option<Session>, read: Result<Text, FrameError>)
    ensures Mints(c.next, RequestStep(w, c, session, read))
  {
    if read.Ok? && DecodeRequest(w.parse(read.value), {}).Ok? {
      ServeMints(w, c, session, read.value, DecodeRequest(w.parse(read.value), {}).value);
    }
  }

  lemma RegionRequestMints(w: World, c: Conn, body: Text, request: Request)
    requires c.mode.InTransaction?
    ensures Mints(c.next, RegionRequest(w, c, c.mode, body, request))
  {
  }

  lemma RegionMints(w: World, c: Conn, read: Result<Text, FrameError>)
    requires c.mode.InTransaction?
    ensures Mints(c.next, RegionStep(w, c, c.mode, read))
  {
    if read.Ok? && DecodeRequest(w.parse(read.value), c.mode.stuck).Ok? {
      RegionRequestMints(w, c, read.value, DecodeRequest(w.parse(read.value), c.mode.stuck).value);
    }
  }

  lemma RestingNext(w: World, c: Conn, session: Option<Session>)
    requires c.mode == Resting(session)
    ensures var d := FrameAt(c.wire, w.maxFrameBytes);
            Next(w, c) == RequestStep(w, c.(wire := d.rest), session, d.result)
  {
  }

  lemma RestingMints(w: World, c: Conn, session: Option<Session>)
    requires c.mode == Resting(session)
    ensures Mints(c.next, Next(w, c))
  {
    var d := FrameAt(c.wire, w.maxFrameBytes);
    RestingNext(w, c, session);
    RequestMints(w, c.(wire := d.rest), session, d.result);
  }

  lemma NextMints(w: World, c: Conn)
    requires !c.mode.Finished?
    ensures Mints(c.next, Next(w, c))
  {
    var d := FrameAt(c.wire, w.maxFrameBytes);
    match c.mode
    case Greeting => GreetingMints(w, c.(wire := d.rest), d.result);
    case Idle => RestingMints(w, c, None);
    case InSession(session) => RestingMints(w, c, Some(session));
    case InTransaction(_, _, _) => RegionMints(w, c.(wire := d.rest), d.result);
  }

  lemma MintMore(c: Conn, after: Conn, ids: seq<string>, minted: seq<string>)
    requires MintsInOrder(c, ids)
    requires || (minted == [] && after.next == c.next)
             || (minted == [SessionId(c.next)] && after.next == (c.next + 1) % U64_LIMIT)
    ensures MintsInOrder(after, ids + minted) && ids + [] == ids
  {
    CounterStep(1, |ids|);
  }

  lemma MachineMints(w: World, c: Conn, ids: seq<string>)
    requires MintsInOrder(c, ids)
    ensures MintsInOrder(Machine(w)(c).after, Replay(MintStep, ids, Machine(w)(c).said))
  {
    var said := Machine(w)(c).said;
    if said != [] {
      assert said[1..] == [];
      assert Replay(MintStep, ids, said) == MintStep(ids, said[0]);
    }
    if !c.mode.Finished? {
      NextMints(w, c);
      MintMore(c, Next(w, c).after, ids, if said == [] then [] else MintedBy(said[0]));
    }
  }

  lemma ConversationMints(w: World, wire: seq<Signal>, sent: Sent, store: Store)
    ensures var c := Opening(wire, sent, store);
            MintsInOrder(Run(w, c), Replay(MintStep, [], Transcript(w, c)))
  {
    var c := Opening(wire, sent, store);
    forall c', ids ensures KeepsAgreement(Machine(w), MintStep, MintsInOrder, c', ids) {
      if MintsInOrder(c', ids) {
        MachineMints(w, c', ids);
      }
    }
    StepsAgree(Machine(w), MintStep, MintsInOrder, c, [], Enough(c));
    ConversationEnds(w, c);
  }

  lemma CounterIds(i: nat, j: nat)
    requires i < j
    ensures SessionId(Counter(1, i)) == SessionId(Counter(1, j)) <==> (j - i) % U64_LIMIT == 0
  {
    CounterWraps(1, i);
    CounterWraps(1, j);
    SameIdSameTurn(1, i, j);
  }

  /**
   Session identifiers are never reused on a connection: over every conversation, with sessions
   opened, failed to open, closed and dropped in any order, two identifiers handed out are equal
   exactly when a whole turn of the 64-bit counter lies between them.
   */
  lemma SessionIdsNeverReused(w: World, wire: seq<Signal>, sent: Sent, store: Store, i: nat, j: nat)
    requires i < j < |Replay(MintStep, [], Transcript(w, Opening(wire, sent, store)))|
    ensures var ids := Replay(MintStep, [], Transcript(w, Opening(wire, sent, store)));
            ids[i] == ids[j] <==> (j - i) % U64_LIMIT == 0
  {
    ConversationMints(w, wire, sent, store);
    CounterIds(i, j);
  }

  // ---------------------------------------------------------------------------------------------
  // Chunking

  /**
   Chunking is invisible end to end: however the same bytes are cut into reads, and however often the
   reads are interrupted, with hard errors at the same offsets every reply, every byte sent, every change
   to the store and the way the conversation ends are the same.
   */
  lemma ChunkingIsInvisible(w: World, some: seq<ReadEvent>, other: seq<ReadEvent>, sent: Sent, store: Store)
    requires BytesOf(some) == BytesOf(other) && FaultsOf(some, 0) == FaultsOf(other, 0)
    ensures var c, c' := Opening(Flatten(some), sent, store), Opening(Flatten(other), sent, store);
            Run(w, c') == Run(w, c) && Transcript(w, c') == Transcript(w, c)
  {
    SameSignalsExactly(some, other);
  }
}

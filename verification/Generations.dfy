/**
 Generations over whole conversations: those of a database keep advancing whatever this connection and
 the others do, and a region commits above the generation that its `begin` reported.
 */
module Generations {
  import opened Wrappers
  import opened Utf8
  import opened Frame
  import opened FrameIO
  import opened Message
  import opened Engine
  import opened Session
  import opened Automaton
  import opened Protocol
  import opened Transcripts
  import opened Outcomes

  /** The open transaction was begun at a generation that its database has reached. */
  predicate Based(c: Conn) {
    c.mode.InTransaction? ==> c.mode.txn.base <= Generation(c.store.journal, c.mode.txn.path)
  }

  ghost predicate Sound(c: Conn, v: View) {
    ModeAgrees(c, v) && Advancing(c.store.journal) && Based(c)
  }

  lemma ServeBased(w: World, c: Conn, session: Option<Session>, body: Text, request: Request)
    ensures Based(ServeStep(w, c, session, body, request).after)
  {
  }

  lemma RequestBased(w: World, c: Conn, session: Option<Session>, read: Result<Text, FrameError>)
    ensures Based(RequestStep(w, c, session, read).after)
  {
    if read.Ok? && DecodeRequest(w.parse(read.value), {}).Ok? {
      ServeBased(w, c, session, read.value, DecodeRequest(w.parse(read.value), {}).value);
    }
  }

  lemma NextBased(w: World, c: Conn, v: View)
    requires !c.mode.Finished? && Sound(c, v)
    ensures Based(Next(w, c).after)
  {
    var d := FrameAt(c.wire, w.maxFrameBytes);
    match c.mode
    case Greeting =>
    case Idle => RequestBased(w, c.(wire := d.rest), None, d.result);
    case InSession(session) => RequestBased(w, c.(wire := d.rest), Some(session), d.result);
    case InTransaction(_, _, _) =>
      RegionKeepsSlot(w, c);
      NextAdds(w, c, v);
  }

  lemma MachineSound(w: World, c: Conn, v: View)
    requires Sound(c, v)
    ensures Sound(Machine(w)(c).after, Replay(ViewStep, v, Machine(w)(c).said))
  {
    if !c.mode.Finished? {
      NextAgrees(w, c, v);
      NextAdds(w, c, v);
      NextBased(w, c, v);
      HeardIsReplay(v, Next(w, c).said);
    }
  }

  /** At every point of every conversation, if generations were in order at its start. */
  lemma ConversationSound(w: World, wire: seq<Signal>, sent: Sent, start: Store, n: nat)
    requires Advancing(start.journal)
    ensures Sound(After(Machine(w), Opening(wire, sent, start), n),
                  ViewOf(SaidBy(Machine(w), Opening(wire, sent, start), n)))
  {
    forall c, v ensures KeepsAgreement(Machine(w), ViewStep, Sound, c, v) {
      if Sound(c, v) {
        MachineSound(w, c, v);
      }
    }
    StepsAgree(Machine(w), ViewStep, Sound, Opening(wire, sent, start), NOTHING_SAID, n);
  }

  lemma BaseStays(v: View, x: Exchange)
    requires ViewStep(v, x).txn.Some? && !BeginsRegion(x)
    ensures v.txn.Some? && ViewStep(v, x).txn.value.base == v.txn.value.base
  {
  }

  /** The base a transcript tells is that of its last accepted `begin`. */
  lemma {:induction false} BaseIsBegun(xs: seq<Exchange>)
    requires ViewOf(xs).txn.Some?
    ensures RegionStart(xs) > 0
    ensures xs[RegionStart(xs) - 1].reply.payload == Began(ViewOf(xs).txn.value.base)
    decreases |xs|
  {
    var before, last := xs[..|xs| - 1], xs[|xs| - 1];
    assert xs == before + [last];
    ViewOfMore(before, last);
    if !BeginsRegion(last) {
      StuckAfter(ViewOf(before), last);
      BaseStays(ViewOf(before), last);
      BaseIsBegun(before);
    }
  }

  predicate SaysCommitted(s: Move) {
    s.said != [] && s.said[0].reply.Accepted? && s.said[0].reply.payload.Committed?
  }

  function CommittedAt(s: Move): nat
    requires SaysCommitted(s)
  {
    s.said[0].reply.payload.generation
  }

  lemma CommitSaysRequest(w: World, c: Conn, body: Text, request: Request)
    requires c.mode.InTransaction? && SaysCommitted(RegionRequest(w, c, c.mode, body, request))
    ensures CommitOf(w.oracle, c.store, c.mode.txn).generation ==
            Some(CommittedAt(RegionRequest(w, c, c.mode, body, request)))
  {
  }

  lemma CommitSays(w: World, c: Conn)
    requires c.mode.InTransaction? && SaysCommitted(Next(w, c))
    ensures CommitOf(w.oracle, c.store, c.mode.txn).generation == Some(CommittedAt(Next(w, c)))
  {
    var d := FrameAt(c.wire, w.maxFrameBytes);
    var request := DecodeRequest(w.parse(d.result.value), c.mode.stuck).value;
    CommitSaysRequest(w, c.(wire := d.rest), d.result.value, request);
  }

  lemma CommitsAbove(w: World, c: Conn)
    requires c.mode.InTransaction? && Advancing(c.store.journal) && Based(c)
    requires SaysCommitted(Next(w, c))
    ensures var committed := CommittedAt(Next(w, c));
            c.mode.txn.base <= committed && (c.mode.txn.overlay != [] ==> c.mode.txn.base < committed)
  {
    CommitSays(w, c);
    CommitAboveBase(w.oracle, c.store, c.mode.txn);
  }

  lemma BaseInView(c: Conn, v: View)
    requires c.mode.InTransaction? && ModeAgrees(c, v)
    ensures v.txn.Some? && v.txn.value.base == c.mode.txn.base
  {
  }

  /**
   A region commits above the generation its `begin` reported, after any number of statements and
   whatever others publish meanwhile; if it changed nothing, at that generation or above.
   */
  lemma RegionCommitIsNewer(w: World, wire: seq<Signal>, sent: Sent, start: Store, n: nat)
    requires Advancing(start.journal)
    ensures var c := After(Machine(w), Opening(wire, sent, start), n);
            var xs := SaidBy(Machine(w), Opening(wire, sent, start), n);
            c.mode.InTransaction? && SaysCommitted(Next(w, c)) ==>
              && RegionStart(xs) > 0 && BeginsRegion(xs[RegionStart(xs) - 1])
              && var base, committed := xs[RegionStart(xs) - 1].reply.payload.base, CommittedAt(Next(w, c));
                 base <= committed && (c.mode.txn.overlay != [] ==> base < committed)
  {
    var c := After(Machine(w), Opening(wire, sent, start), n);
    var xs := SaidBy(Machine(w), Opening(wire, sent, start), n);
    if c.mode.InTransaction? && SaysCommitted(Next(w, c)) {
      ConversationSound(w, wire, sent, start, n);
      BaseInView(c, ViewOf(xs));
      BaseIsBegun(xs);
      CommitsAbove(w, c);
    }
  }
}

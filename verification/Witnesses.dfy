/**
 Concrete conversations in which the protocol's promises fail, from the first frame on, all in one small
 world: the catalog holds one name, the Engine does whatever it is asked, every statement writes, and no
 result may have a row.
 */
module Witnesses {
  import opened Wrappers
  import opened Json
  import opened Utf8
  import opened Frame
  import opened FrameIO
  import opened Message
  import opened Catalog
  import CatalogTheorems
  import opened Engine
  import opened Session
  import opened Automaton
  import opened Protocol
  import opened SessionNaming

  const HELLO := Obj(map["message" := Str("hello"), "supported_versions" := Arr([Num(Integer(1))])])
  const OPEN := Request(1, "o", None, OpenSession, Some("a"), None)
  const BEGIN := Request(1, "b", None, Begin, None, None)

  const CATALOG := Contents(map["a" := Entry("/a", map[])], map[])

  /** Such a world, for any way of reading frames. */
  function Example(parse: Text -> Option<Json>): World {
    World(
      parse,
      (reply: Reply) => [],
      Oracle(
        (n: nat) => true,
        (n: nat) => MayBegin(0),
        (n: nat, overlay: Overlay, statement: string) => RunChoice(["written"], Rows(["row"])),
        (n: nat) => MayCommit(0, false),
        (n: nat) => [],
        (statement: string) => None,
        (n: nat) => Readable(Some(DocumentOf(CATALOG)))),
      (n: nat) => None,
      "", 1, 0)
  }

  /** Names a session that is not the connection's. */
  function Foreign(operation: Operation, statement: Option<string>): Request {
    Request(1, "r", Some("s2"), operation, None, statement)
  }

  const OURS := Session("s1", "a", "/a")

  const NOTHING_YET := Store([], 0)

  function Frames(bodies: seq<Text>): seq<Signal>
    requires AllFit(bodies, 1)
  {
    if bodies == [] then [] else Octets(Encode(bodies[0])) + Frames(bodies[1..])
  }

  /** The connection when its client's frames have all arrived and none has been read. */
  function Starting(bodies: seq<Text>): Conn
    requires AllFit(bodies, 1)
  {
    Opening(Frames(bodies), Sent([], 0), NOTHING_YET)
  }

  // ---------------------------------------------------------------------------------------------
  // What such a world is like, for a connection that has been read this far

  /** Every reply can be sent, no other connection publishes, and the Engine and the catalog are at hand. */
  ghost predicate Obliging(w: World) {
    && w.maxFrameBytes == 1 && w.maxResultRows == 0
    && (forall i :: w.faults(i) == None) && (forall reply :: w.render(reply) == [])
    && (forall n :: w.oracle.open(n)) && (forall n :: w.oracle.begin(n) == MayBegin(0))
    && (forall n :: w.oracle.foreign(n) == [])
    && (forall n :: w.oracle.files(n) == Readable(Some(DocumentOf(CATALOG))))
  }

  lemma ExampleObliges(parse: Text -> Option<Json>)
    ensures Obliging(Example(parse))
  {
  }

  lemma ReplySent(w: World, sent: Sent, reply: Reply)
    requires Obliging(w)
    ensures Saying(w, sent, reply).result.Ok?
  {
  }

  /** The same connection, for all but what it has sent. */
  predicate SameBut(c: Conn, other: Conn) {
    c == other.(sent := c.sent)
  }

  /** The frame that comes next, and what is left after it. */
  predicate Comes(w: World, c: Conn, body: Text, rest: seq<Signal>) {
    FrameAt(c.wire, w.maxFrameBytes) == Decoded(Ok(body), rest)
  }

  lemma Greets(w: World, c: Conn, body: Text, rest: seq<Signal>)
    requires Obliging(w) && c.mode == Greeting && Comes(w, c, body, rest) && Handshake(w.parse(body)) == Ok(1)
    ensures SameBut(Machine(w)(c).after, c.(mode := Idle, version := 1, wire := rest))
  {
    ReplySent(w, c.sent, Welcome(1, w.endpoint));
  }

  lemma CatalogLoads()
    ensures LoadOf(Readable(Some(DocumentOf(CATALOG)))) == Ok(CATALOG)
  {
    assert CatalogTheorems.EntryWellFormed("a", Entry("/a", map[]));
    CatalogTheorems.PrintedReads(CATALOG);
  }

  lemma FirstId()
    ensures SessionId(1) == "s1"
  {
    assert Decimal(1) == "1";
  }

  lemma OpensSlot(w: World)
    requires Obliging(w)
    ensures var d := OpenSessionOf(w, SlotState(None, 1), NOTHING_YET, OPEN, 1);
            d.verdict.Send? && d.slot == SlotState(Some(OURS), 2) && d.store == Store([], 2)
  {
    CatalogLoads();
    FirstId();
    assert w.oracle.files(0) == Readable(Some(DocumentOf(CATALOG)));
    assert w.oracle.foreign(0) == [] && w.oracle.foreign(1) == [];
  }

  lemma Opens(w: World, c: Conn, body: Text, rest: seq<Signal>)
    requires Obliging(w) && Receives(w, c, body, OPEN) && Comes(w, c, body, rest)
    requires c.mode == Idle && c.version == 1 && c.next == 1 && c.store == NOTHING_YET
    ensures SameBut(Machine(w)(c).after, c.(mode := InSession(OURS), next := 2, wire := rest, store := Store([], 2)))
  {
    ReceivedStep(w, c, body, OPEN);
    OpensSlot(w);
    ReplySent(w, c.sent, OpenSessionOf(w, SlotState(None, 1), NOTHING_YET, OPEN, 1).verdict.reply);
  }

  const OPEN_TRANSACTION := InTransaction(OURS, Txn("/a", 0, []), {})

  lemma BeginsRegion(w: World, c: Conn, body: Text)
    requires Obliging(w) && c.version == 1 && c.store == Store([], 2)
    ensures SameBut(BeginStep(w, c, OURS, body, BEGIN).after, c.(mode := OPEN_TRANSACTION, store := Store([], 3)))
  {
    assert w.oracle.foreign(2) == [];
    ReplySent(w, c.sent, Accepted(1, "b", Began(0)));
  }

  lemma Begins(w: World, c: Conn, body: Text, rest: seq<Signal>)
    requires Obliging(w) && Receives(w, c, body, BEGIN) && Comes(w, c, body, rest)
    requires c.mode == InSession(OURS) && c.version == 1 && c.store == Store([], 2)
    ensures SameBut(Machine(w)(c).after, c.(mode := OPEN_TRANSACTION, wire := rest, store := Store([], 3)))
  {
    ReceivedStep(w, c, body, BEGIN);
    BeginsRegion(w, c.(wire := rest), body);
  }

  /** Where the second and the third request of the script find the connection. */
  predicate ReadyToOpen(c: Conn) {
    c.mode == Idle && c.version == 1 && c.next == 1 && c.store == NOTHING_YET
  }

  predicate ReadyToBegin(c: Conn) {
    c.mode == InSession(OURS) && c.version == 1 && c.store == Store([], 2)
  }

  /** What is known of a step of the conversation, whatever function it is that makes it. */
  ghost predicate Answers(next: Conn -> Move, w: World, c: Conn) {
    var d := FrameAt(c.wire, w.maxFrameBytes);
    d.result.Ok? ==>
      && (c.mode == Greeting && Handshake(w.parse(d.result.value)) == Ok(1) ==>
            SameBut(next(c).after, c.(mode := Idle, version := 1, wire := d.rest)))
      && (ReadyToOpen(c) && Receives(w, c, d.result.value, OPEN) ==>
            SameBut(next(c).after, c.(mode := InSession(OURS), next := 2, wire := d.rest, store := Store([], 2))))
      && (ReadyToBegin(c) && Receives(w, c, d.result.value, BEGIN) ==>
            SameBut(next(c).after, c.(mode := OPEN_TRANSACTION, wire := d.rest, store := Store([], 3))))
  }

  lemma MachineAnswers(w: World, c: Conn)
    requires Obliging(w)
    ensures Answers(Machine(w), w, c)
  {
    var d := FrameAt(c.wire, w.maxFrameBytes);
    if d.result.Ok? {
      var body := d.result.value;
      if c.mode == Greeting && Handshake(w.parse(body)) == Ok(1) {
        Greets(w, c, body, d.rest);
      } else if ReadyToOpen(c) && Receives(w, c, body, OPEN) {
        Opens(w, c, body, d.rest);
      } else if ReadyToBegin(c) && Receives(w, c, body, BEGIN) {
        Begins(w, c, body, d.rest);
      }
    }
  }

  // ---------------------------------------------------------------------------------------------
  // The conversations

  /** What the client sends after its hello. */
  function Script(last: Request): seq<Request> {
    [OPEN, BEGIN, last]
  }

  function FrameOf(i: nat): Text
    requires i < 3
  {
    [[2], [3], [4]][i]
  }

  /** A world that obliges, and that reads the client's frames as its script has them. */
  ghost predicate Scripted(w: World, last: Request) {
    && Obliging(w) && Handshake(w.parse([1])) == Ok(1)
    && forall i: nat :: i < 3 ==> DecodeRequest(w.parse(FrameOf(i)), {}) == Ok(Script(last)[i])
  }

  lemma HelloGreets() returns (document: Option<Json>)
    ensures Handshake(document) == Ok(1)
  {
    document := Some(HELLO);
    assert Offers(document, 1);
    HandshakeExactly(document, 1);
  }

  lemma RequestReads(request: Request) returns (document: Option<Json>)
    requires Sendable(request)
    ensures DecodeRequest(document, {}) == Ok(request)
  {
    document := Some(EncodeRequest(request, map[]));
    RequestRoundTrip(request, map[], {});
  }

  lemma ScriptedIfRead(parse: Text -> Option<Json>, last: Request)
    requires Handshake(parse([1])) == Ok(1)
    requires DecodeRequest(parse([2]), {}) == Ok(OPEN) && DecodeRequest(parse([3]), {}) == Ok(BEGIN)
    requires DecodeRequest(parse([4]), {}) == Ok(last)
    ensures Scripted(Example(parse), last)
  {
    ExampleObliges(parse);
    forall i: nat | i < 3 ensures DecodeRequest(parse(FrameOf(i)), {}) == Ok(Script(last)[i]) {
      assert i == 0 || i == 1 || i == 2;
    }
  }

  /** There is such a world for every last request that a client can send. */
  lemma ScriptedWorld(last: Request) returns (w: World)
    requires Sendable(last)
    ensures Scripted(w, last) && w.oracle.cypher("q") == None
  {
    var hello := HelloGreets();
    var open := RequestReads(OPEN);
    var begin := RequestReads(BEGIN);
    var final := RequestReads(last);
    var parse := (body: Text) =>
      if body == [1] then hello else if body == [2] then open else if body == [3] then begin else final;
    ScriptedIfRead(parse, last);
    w := Example(parse);
  }

  lemma FrameComes(bodies: seq<Text>)
    requires AllFit(bodies, 1) && bodies != []
    ensures FrameAt(Frames(bodies), 1) == Decoded(Ok(bodies[0]), Frames(bodies[1..]))
  {
    EncodedFrameReads(bodies[0], Frames(bodies[1..]), 1);
  }

  lemma {:induction false} AfterOneMore<C, X>(next: C -> Step<C, X>, c: C, n: nat)
    ensures After(next, c, n + 1) == next(After(next, c, n)).after
    decreases n
  {
    if n == 0 {
    } else {
      AfterOneMore(next, next(c).after, n - 1);
    }
  }

  const TO_CLOSE: seq<Text> := [[1], [2], [4]]
  const TO_QUERY: seq<Text> := [[1], [2], [3], [4]]

  lemma GreetsFirst(next: Conn -> Move, w: World, bodies: seq<Text>)
    requires AllFit(bodies, 1) && |bodies| > 1 && bodies[0] == [1]
    requires Answers(next, w, Starting(bodies)) && w.maxFrameBytes == 1 && Handshake(w.parse([1])) == Ok(1)
    ensures SameBut(next(Starting(bodies)).after, Conn(Idle, 1, 1, Frames(bodies[1..]), Sent([], 0), NOTHING_YET))
  {
    FrameComes(bodies);
  }

  lemma OpensNext(next: Conn -> Move, w: World, c: Conn, bodies: seq<Text>)
    requires Answers(next, w, c) && w.maxFrameBytes == 1 && DecodeRequest(w.parse([2]), {}) == Ok(OPEN)
    requires AllFit(bodies, 1) && |bodies| > 1 && bodies[0] == [2]
    requires SameBut(c, Conn(Idle, 1, 1, Frames(bodies), Sent([], 0), NOTHING_YET))
    ensures SameBut(next(c).after, Conn(InSession(OURS), 1, 2, Frames(bodies[1..]), Sent([], 0), Store([], 2)))
  {
    FrameComes(bodies);
  }

  lemma BeginsNext(next: Conn -> Move, w: World, c: Conn, bodies: seq<Text>)
    requires Answers(next, w, c) && w.maxFrameBytes == 1 && DecodeRequest(w.parse([3]), {}) == Ok(BEGIN)
    requires AllFit(bodies, 1) && |bodies| > 1 && bodies[0] == [3]
    requires SameBut(c, Conn(InSession(OURS), 1, 2, Frames(bodies), Sent([], 0), Store([], 2)))
    ensures SameBut(next(c).after, Conn(OPEN_TRANSACTION, 1, 2, Frames(bodies[1..]), Sent([], 0), Store([], 3)))
  {
    FrameComes(bodies);
  }

  /** A connection that such a client brings about, whatever function it is that makes its steps. */
  ghost predicate Reaches(next: Conn -> Move, bodies: seq<Text>, c: Conn)
    requires AllFit(bodies, 1)
  {
    exists n: nat :: After(next, Starting(bodies), n) == c
  }

  lemma ReachesNext(next: Conn -> Move, bodies: seq<Text>, c: Conn)
    requires AllFit(bodies, 1) && Reaches(next, bodies, c)
    ensures Reaches(next, bodies, next(c).after)
  {
    var n: nat :| After(next, Starting(bodies), n) == c;
    AfterOneMore(next, Starting(bodies), n);
  }

  lemma OpensFirst(next: Conn -> Move, w: World, last: Request, bodies: seq<Text>) returns (c: Conn)
    requires Scripted(w, last) && forall c' :: Answers(next, w, c')
    requires AllFit(bodies, 1) && |bodies| > 2 && bodies[0] == [1] && bodies[1] == [2]
    ensures Reaches(next, bodies, c)
    ensures SameBut(c, Conn(InSession(OURS), 1, 2, Frames(bodies[2..]), Sent([], 0), Store([], 2)))
  {
    var c0 := Starting(bodies);
    assert After(next, c0, 0) == c0;
    assert FrameOf(0) == [2] && Script(last)[0] == OPEN;
    GreetsFirst(next, w, bodies);
    ReachesNext(next, bodies, c0);
    OpensNext(next, w, next(c0).after, bodies[1..]);
    ReachesNext(next, bodies, next(c0).after);
    assert bodies[1..][1..] == bodies[2..];
    c := next(next(c0).after).after;
  }

  lemma BeginsThen(next: Conn -> Move, w: World, last: Request) returns (c: Conn)
    requires Scripted(w, last) && forall c' :: Answers(next, w, c')
    ensures Reaches(next, TO_QUERY, c)
    ensures SameBut(c, Conn(OPEN_TRANSACTION, 1, 2, Frames([[4]]), Sent([], 0), Store([], 3)))
  {
    var c2 := OpensFirst(next, w, last, TO_QUERY);
    assert FrameOf(1) == [3] && Script(last)[1] == BEGIN;
    assert TO_QUERY[2..][1..] == [[4]];
    BeginsNext(next, w, c2, TO_QUERY[2..]);
    ReachesNext(next, TO_QUERY, c2);
    c := next(c2).after;
  }

  const FOREIGN_QUERY := Foreign(Query, Some("q"))
  const FOREIGN_CLOSE := Foreign(CloseSession, None)

  /** A reply that is no refusal for the session named, and what the request led to. */
  ghost predicate LeadsTo(s: Move, after: Mode) {
    (forall x :: x in s.said ==> !RefusedAsUnknown(x.reply)) && s.after.mode == after
  }

  /** The last request names another session, is not refused for it, and leads to this. */
  ghost predicate CarriedOut(w: World, c: Conn, request: Request, s: Move, after: Mode) {
    Receives(w, c, [4], request) && NamesAnother(c.mode, request) && LeadsTo(s, after)
  }

  const AT_CLOSE := Conn(InSession(OURS), 1, 2, Frames([[4]]), Sent([], 0), Store([], 2))
  const AT_QUERY := Conn(OPEN_TRANSACTION, 1, 2, Frames([[4]]), Sent([], 0), Store([], 3))

  /** Where the two scripts have got to when the last request comes. */
  lemma MachineAnswersAll(w: World)
    requires Obliging(w)
    ensures forall c :: Answers(Machine(w), w, c)
  {
    forall c ensures Answers(Machine(w), w, c) {
      MachineAnswers(w, c);
    }
  }

  lemma CloseScriptRuns(w: World, last: Request) returns (c: Conn)
    requires Scripted(w, last)
    ensures Reaches(Machine(w), TO_CLOSE, c) && SameBut(c, AT_CLOSE)
  {
    MachineAnswersAll(w);
    assert TO_CLOSE[2..] == [[4]];
    c := OpensFirst(Machine(w), w, last, TO_CLOSE);
  }

  lemma QueryScriptRuns(w: World, last: Request) returns (c: Conn)
    requires Scripted(w, last)
    ensures Reaches(Machine(w), TO_QUERY, c) && SameBut(c, AT_QUERY)
  {
    MachineAnswersAll(w);
    c := BeginsThen(Machine(w), w, last);
  }

  lemma LastComes(w: World, c: Conn, last: Request)
    requires Scripted(w, last) && (SameBut(c, AT_CLOSE) || SameBut(c, AT_QUERY))
    ensures Receives(w, c, [4], last) && FrameAt(c.wire, w.maxFrameBytes).rest == []
  {
    FrameComes([[4]]);
    assert FrameOf(2) == [4] && Script(last)[2] == last;
  }

  lemma Writes(w: World, c: Conn, m: Mode)
    requires Obliging(w) && w.oracle.cypher("q") == None && m.InTransaction? && c.store.tick == 3
    ensures LeadsTo(RegionRequest(w, c, m, [4], FOREIGN_QUERY),
                    m.(txn := m.txn.(overlay := w.oracle.run(3, m.txn.overlay, "q").overlay)))
  {
    var q := QueryInRegionOf(w, c.store, m.txn, "q", c.version, "r");
    ReplySent(w, c.sent, q.reply);
  }

  /**
   After a hello, an `open_session` and a `begin`, a statement for another session runs in this
   connection's transaction, and leaves in it whatever the Engine makes of it.
   */
  lemma ForeignStatementRuns(w: World) returns (c: Conn)
    requires Scripted(w, FOREIGN_QUERY) && w.oracle.cypher("q") == None
    ensures Reaches(Machine(w), TO_QUERY, c) && c.mode == OPEN_TRANSACTION
    ensures var overlay := w.oracle.run(3, [], "q").overlay;
            CarriedOut(w, c, FOREIGN_QUERY, Next(w, c), InTransaction(OURS, Txn("/a", 0, overlay), {}))
  {
    c := QueryScriptRuns(w, FOREIGN_QUERY);
    LastComes(w, c, FOREIGN_QUERY);
    ReceivedStep(w, c, [4], FOREIGN_QUERY);
    Writes(w, c.(wire := []), c.mode);
  }

  lemma CloseArrives(w: World, c: Conn)
    requires Scripted(w, FOREIGN_CLOSE) && SameBut(c, AT_CLOSE)
    ensures Receives(w, c, [4], FOREIGN_CLOSE)
    ensures Next(w, c) == ServeStep(w, c.(wire := []), Some(OURS), [4], FOREIGN_CLOSE)
  {
    LastComes(w, c, FOREIGN_CLOSE);
    ReceivedStep(w, c, [4], FOREIGN_CLOSE);
  }

  lemma Closes(w: World, c: Conn, s: Move)
    requires Obliging(w) && s == ServeStep(w, c, Some(OURS), [4], FOREIGN_CLOSE)
    ensures LeadsTo(s, Idle)
  {
    ReplySent(w, c.sent, Accepted(c.version, "r", SessionClosed(true)));
  }

  /** After a hello and an `open_session`, a `close_session` for another session closes this connection's. */
  lemma ForeignCloseCloses(w: World) returns (c: Conn)
    requires Scripted(w, FOREIGN_CLOSE)
    ensures Reaches(Machine(w), TO_CLOSE, c) && c.mode == InSession(OURS)
    ensures CarriedOut(w, c, FOREIGN_CLOSE, Next(w, c), Idle)
  {
    c := CloseScriptRuns(w, FOREIGN_CLOSE);
    CloseArrives(w, c);
    Closes(w, c.(wire := []), Next(w, c));
  }

  /** The row ceiling's error follows a commit: the statement is refused and its writes are published. */
  lemma ErrorAfterCommit()
    ensures var one := RunOneOf(Example((body: Text) => None), NOTHING_YET, "/a", "q", 1, "r");
            && one.reply == RowLimit(1, "r")
            && Own(one.store.journal) == [Publication("/a", 1, ["written"], true)]
  {
    var one := RunOneOf(Example((body: Text) => None), NOTHING_YET, "/a", "q", 1, "r");
    assert one.store.journal == [Publication("/a", 1, ["written"], true)];
    assert one.store.journal[..0] == [];
  }
}

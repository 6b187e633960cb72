/**
 The slot of src/session.rs: a connection holds no session or one, and every session that is opened
 gets the next identifier of a counter. The counter is a `u64` that wraps, as it does in a release
 build.
 */
module Session {
  import opened Wrappers
  import opened Json
  import opened Catalog
  import opened Message
  import opened Engine

  datatype Session = Session(id: string, name: string, path: string)

  datatype OpenError = Refused(rule: Rule) | UnknownName(name: string) | Storage

  /** The slot as a value: what the class below holds in its two fields. */
  datatype SlotState = SlotState(session: Option<Session>, next: nat)

  function Digit(n: nat): char
    requires n < 10
  {
    ['0', '1', '2', '3', '4', '5', '6', '7', '8', '9'][n]
  }

  function Decimal(n: nat): string {
    if n < 10 then [Digit(n)] else Decimal(n / 10) + [Digit(n % 10)]
  }

  function SessionId(n: nat): string {
    "s" + Decimal(n)
  }

  datatype Opened = Opened(slot: SlotState, store: Store, result: Result<Session, OpenError>)

  function OpenOf(o: Oracle, slot: SlotState, store: Store, name: string, catalog: Contents): Opened {
    if slot.session.Some? then
      Opened(slot, store, Err(Refused(SecondSessionOnOneConnection)))
    else if name !in catalog.databases then
      Opened(slot, store, Err(UnknownName(name)))
    else if !o.open(store.tick) then
      Opened(slot, Ticked(o, store), Err(Storage))
    else
      var session := Session(SessionId(slot.next), name, catalog.databases[name].path);
      Opened(SlotState(Some(session), (slot.next + 1) % U64_LIMIT), Ticked(o, store), Ok(session))
  }

  function ResolveOf(session: Option<Session>, named: Option<string>): Result<Session, Rule> {
    if session == None || (named.Some? && named.value != session.value.id) then Err(UnknownSession)
    else Ok(session.value)
  }

  class Slot {
    var session: Option<Session>
    var next: nat

    constructor ()
      ensures State() == SlotState(None, 1)
    {
      session, next := None, 1;
    }

    ghost function State(): SlotState
      reads this
    {
      SlotState(session, next)
    }

    method Open(engine: Engine, name: string, catalog: Catalog) returns (r: Result<Session, OpenError>)
      modifies this, engine`journal, engine`tick
      ensures Opened(State(), engine.State(), r)
           == OpenOf(engine.oracle, old(State()), old(engine.State()), name, old(catalog.Value()))
      ensures r.Ok? <==> old(session) == None && name in old(catalog.databases) && engine.oracle.open(old(engine.tick))
      ensures r.Ok? ==>
                && session == Some(r.value) && next == (old(next) + 1) % U64_LIMIT
                && r.value == Session(SessionId(old(next)), name, old(catalog.databases)[name].path)
      ensures r.Err? ==> State() == old(State())
    {
      if session.Some? {
        return Err(Refused(SecondSessionOnOneConnection));
      }
      var entry := catalog.Lookup(name);
      if entry == None {
        return Err(UnknownName(name));
      }
      var path := entry.value.path;
      var reachable := engine.OpenDatabase(path);
      if !reachable {
        return Err(Storage);
      }
      var id := SessionId(next);
      next := (next + 1) % U64_LIMIT;
      session := Some(Session(id, name, path));
      r := Ok(session.value);
    }

    /** The one session there is, unless the request means another. */
    method Resolve(named: Option<string>) returns (r: Result<Session, Rule>)
      ensures r == ResolveOf(session, named)
    {
      if session == None {
        return Err(UnknownSession);
      }
      if named.Some? && named.value != session.value.id {
        return Err(UnknownSession);
      }
      r := Ok(session.value);
    }

    /** Leaves the connection without a session, whether or not it had one. */
    method Close() returns (closed: bool)
      modifies this`session
      ensures session == None && closed == old(session).Some?
    {
      closed := session.Some?;
      session := None;
    }
  }

  // ---------------------------------------------------------------------------------------------
  // Identifiers are texts of numbers, and distinct numbers have distinct texts

  function ValueOf(c: char): int {
    c as int - '0' as int
  }

  function Number(s: string): int {
    if s == "" then 0 else Number(s[..|s| - 1]) * 10 + ValueOf(s[|s| - 1])
  }

  lemma {:induction false} DecimalReads(n: nat)
    ensures Number(Decimal(n)) == n
  {
    if n < 10 {
      assert Decimal(n)[..0] == "";
    } else {
      DecimalReads(n / 10);
      assert Decimal(n)[..|Decimal(n)| - 1] == Decimal(n / 10);
    }
  }

  lemma SessionIdInjective(m: nat, n: nat)
    ensures SessionId(m) == SessionId(n) <==> m == n
  {
    if SessionId(m) == SessionId(n) {
      assert SessionId(m)[1..] == Decimal(m) && SessionId(n)[1..] == Decimal(n);
      DecimalReads(m);
      DecimalReads(n);
    }
  }

  // ---------------------------------------------------------------------------------------------
  // Histories of one slot

  /** One call: an open, successful or not, or a close. */
  datatype SlotCall = OpenCall(name: string, catalog: Contents, store: Store) | CloseCall

  function Called(o: Oracle, slot: SlotState, call: SlotCall): SlotState {
    match call
    case CloseCall => slot.(session := None)
    case OpenCall(name, catalog, store) => OpenOf(o, slot, store, name, catalog).slot
  }

  /** The identifier the call minted, if it minted one. */
  function Minted(o: Oracle, slot: SlotState, call: SlotCall): seq<string> {
    match call
    case CloseCall => []
    case OpenCall(name, catalog, store) =>
      match OpenOf(o, slot, store, name, catalog).result
      case Ok(session) => [session.id]
      case Err(_) => []
  }

  function SlotAfter(o: Oracle, slot: SlotState, calls: seq<SlotCall>): SlotState
    decreases |calls|
  {
    if calls == [] then slot else SlotAfter(o, Called(o, slot, calls[0]), calls[1..])
  }

  function AllMinted(o: Oracle, slot: SlotState, calls: seq<SlotCall>): seq<string>
    decreases |calls|
  {
    if calls == [] then []
    else Minted(o, slot, calls[0]) + AllMinted(o, Called(o, slot, calls[0]), calls[1..])
  }

  /** The counter after `k` more identifiers. */
  function Counter(next: nat, k: nat): nat
    decreases k
  {
    if k == 0 then next else Counter((next + 1) % U64_LIMIT, k - 1)
  }

  lemma CallMints(o: Oracle, slot: SlotState, call: SlotCall)
    ensures var minted, after := Minted(o, slot, call), Called(o, slot, call);
            if minted == [] then after.next == slot.next
            else minted == [SessionId(slot.next)] && after.next == Counter(slot.next, 1)
  {
  }

  lemma {:induction false} MintedByCounter(o: Oracle, slot: SlotState, calls: seq<SlotCall>, k: nat)
    requires k < |AllMinted(o, slot, calls)|
    ensures AllMinted(o, slot, calls)[k] == SessionId(Counter(slot.next, k))
    decreases |calls|
  {
    CallMints(o, slot, calls[0]);
    var first, after := Minted(o, slot, calls[0]), Called(o, slot, calls[0]);
    if first == [] {
      MintedByCounter(o, after, calls[1..], k);
    } else if k > 0 {
      assert AllMinted(o, slot, calls)[k] == AllMinted(o, after, calls[1..])[k - 1];
      MintedByCounter(o, after, calls[1..], k - 1);
    }
  }

  lemma {:induction false} WrapSum(n: nat, turns: nat)
    ensures (n + U64_LIMIT * turns) % U64_LIMIT == n % U64_LIMIT
  {
    if turns == 0 {
    } else {
      WrapSum(n, turns - 1);
      assert n + U64_LIMIT * turns == n + U64_LIMIT * (turns - 1) + U64_LIMIT;
      var m := n + U64_LIMIT * (turns - 1);
      assert m == U64_LIMIT * (m / U64_LIMIT) + m % U64_LIMIT;
      assert m + U64_LIMIT == U64_LIMIT * (m / U64_LIMIT + 1) + m % U64_LIMIT;
    }
  }

  lemma WrapNext(n: nat, k: nat)
    requires k > 0
    ensures ((n + 1) % U64_LIMIT + (k - 1)) % U64_LIMIT == (n + k) % U64_LIMIT
  {
    var m := n + 1;
    WrapSum(m % U64_LIMIT + (k - 1), m / U64_LIMIT);
    assert m % U64_LIMIT + U64_LIMIT * (m / U64_LIMIT) == m;
  }

  lemma {:induction false} CounterWraps(next: nat, k: nat)
    requires next < U64_LIMIT
    ensures Counter(next, k) == (next + k) % U64_LIMIT
    decreases k
  {
    if k == 0 {
    } else {
      CounterWraps((next + 1) % U64_LIMIT, k - 1);
      WrapNext(next, k);
    }
  }

  /** The k-th identifier is the text of the counter's k-th value, however opens and closes mix. */
  lemma MintedInOrder(o: Oracle, slot: SlotState, calls: seq<SlotCall>, k: nat)
    requires slot.next < U64_LIMIT && k < |AllMinted(o, slot, calls)|
    ensures AllMinted(o, slot, calls)[k] == SessionId((slot.next + k) % U64_LIMIT)
  {
    MintedByCounter(o, slot, calls, k);
    CounterWraps(slot.next, k);
  }

  lemma WrapEqual(n: nat, i: nat, j: nat)
    requires i < j
    ensures (n + i) % U64_LIMIT == (n + j) % U64_LIMIT <==> (j - i) % U64_LIMIT == 0
  {
    var a, b := n + i, n + j;
    var qa, qb := a / U64_LIMIT, b / U64_LIMIT;
    if a % U64_LIMIT == b % U64_LIMIT {
      assert a == U64_LIMIT * qa + a % U64_LIMIT && b == U64_LIMIT * qb + b % U64_LIMIT;
      assert qa <= qb;
      assert j - i == 0 + U64_LIMIT * (qb - qa);
      WrapSum(0, qb - qa);
    }
    if (j - i) % U64_LIMIT == 0 {
      WrapSum(a, (j - i) / U64_LIMIT);
    }
  }

  lemma SameIdSameTurn(n: nat, i: nat, j: nat)
    requires i < j
    ensures SessionId((n + i) % U64_LIMIT) == SessionId((n + j) % U64_LIMIT) <==> (j - i) % U64_LIMIT == 0
  {
    SessionIdInjective((n + i) % U64_LIMIT, (n + j) % U64_LIMIT);
    WrapEqual(n, i, j);
  }

  /**
   Over every run of opens, failed opens and closes, two identifiers that were minted are equal
   exactly when a whole turn of the 64-bit counter lies between them.
   */
  lemma MintedDistinct(o: Oracle, slot: SlotState, calls: seq<SlotCall>, i: nat, j: nat)
    requires slot.next < U64_LIMIT && i < j < |AllMinted(o, slot, calls)|
    ensures AllMinted(o, slot, calls)[i] == AllMinted(o, slot, calls)[j] <==> (j - i) % U64_LIMIT == 0
  {
    MintedInOrder(o, slot, calls, i);
    MintedInOrder(o, slot, calls, j);
    SameIdSameTurn(slot.next, i, j);
  }

  /** The identifier minted last before the counter reached its present value. */
  function LastMinted(slot: SlotState): string {
    SessionId((slot.next + (U64_LIMIT - 1)) % U64_LIMIT)
  }

  predicate HoldsLastMinted(slot: SlotState) {
    slot.next < U64_LIMIT && (slot.session.Some? ==> slot.session.value.id == LastMinted(slot))
  }

  /** One on, and all the way round but one, is where it was. */
  lemma WholeTurn(n: nat)
    requires n < U64_LIMIT
    ensures ((n + 1) % U64_LIMIT + (U64_LIMIT - 1)) % U64_LIMIT == n
  {
    WrapNext(n, U64_LIMIT);
    WrapSum(n, 1);
  }

  lemma LastAfterMinting(slot: SlotState)
    requires slot.next < U64_LIMIT
    ensures LastMinted(slot.(next := (slot.next + 1) % U64_LIMIT)) == SessionId(slot.next)
  {
    WholeTurn(slot.next);
  }

  lemma {:induction false} HistoryHoldsLastMinted(o: Oracle, slot: SlotState, calls: seq<SlotCall>)
    requires HoldsLastMinted(slot)
    ensures HoldsLastMinted(SlotAfter(o, slot, calls))
    decreases |calls|
  {
    if calls == [] {
    } else {
      LastAfterMinting(slot);
      HistoryHoldsLastMinted(o, Called(o, slot, calls[0]), calls[1..]);
    }
  }

  /** The counter counts what was minted. */
  lemma {:induction false} CounterAfter(o: Oracle, slot: SlotState, calls: seq<SlotCall>)
    ensures SlotAfter(o, slot, calls).next == Counter(slot.next, |AllMinted(o, slot, calls)|)
    decreases |calls|
  {
    if calls == [] {
    } else {
      CallMints(o, slot, calls[0]);
      CounterAfter(o, Called(o, slot, calls[0]), calls[1..]);
    }
  }

  lemma WrapAgain(a: nat, b: nat)
    ensures (a % U64_LIMIT + b) % U64_LIMIT == (a + b) % U64_LIMIT
  {
    WrapSum(a % U64_LIMIT + b, a / U64_LIMIT);
    assert a % U64_LIMIT + U64_LIMIT * (a / U64_LIMIT) == a;
  }

  lemma PreviousMoves(n: nat, k: nat)
    ensures var moved, here := (n + k) % U64_LIMIT, n + (U64_LIMIT - 1);
            SessionId((moved + (U64_LIMIT - 1)) % U64_LIMIT) == SessionId(here % U64_LIMIT) <==> k % U64_LIMIT == 0
  {
    WrapAgain(n + k, U64_LIMIT - 1);
    if k > 0 {
      SameIdSameTurn(n, U64_LIMIT - 1, k + (U64_LIMIT - 1));
    }
  }

  /** The identifier minted last changes with every one that is minted, for a whole turn. */
  lemma LastMintedMoves(o: Oracle, slot: SlotState, calls: seq<SlotCall>)
    requires slot.next < U64_LIMIT
    ensures var minted := |AllMinted(o, slot, calls)|;
            LastMinted(SlotAfter(o, slot, calls)) == LastMinted(slot) <==> minted % U64_LIMIT == 0
  {
    var minted := |AllMinted(o, slot, calls)|;
    CounterAfter(o, slot, calls);
    CounterWraps(slot.next, minted);
    PreviousMoves(slot.next, minted);
  }

  const NEW_SLOT := SlotState(None, 1)

  /**
   A closed session's identifier never resolves again: whatever came before the close and whatever
   follows it, a request that names it is accepted only if a session is open that was minted whole
   turns of the 64-bit counter later.
   */
  lemma ClosedNeverResolves(o: Oracle, before: seq<SlotCall>, later: seq<SlotCall>)
    requires SlotAfter(o, NEW_SLOT, before).session.Some?
    ensures var open := SlotAfter(o, NEW_SLOT, before);
            var closed := Called(o, open, CloseCall);
            var held := SlotAfter(o, closed, later).session;
            ResolveOf(held, Some(open.session.value.id)).Ok? <==>
            held.Some? && |AllMinted(o, closed, later)| % U64_LIMIT == 0
  {
    HistoryHoldsLastMinted(o, NEW_SLOT, before);
    var closed := Called(o, SlotAfter(o, NEW_SLOT, before), CloseCall);
    HistoryHoldsLastMinted(o, closed, later);
    LastMintedMoves(o, closed, later);
  }
}

/**
 Message decoding and version negotiation (src/message.rs). A refusal is its section 8 rule; the
 wording of its detail is not modelled.
 */
module Message {
  import opened Wrappers
  import opened Json

  const SUPPORTED_VERSIONS: seq<nat> := [1]

  datatype Rule =
    | VersionsDoNotIntersect
    | VersionAbsentAfterHandshake
    | FirstMessageNotHello
    | FrameTooLarge
    | BodyNotAnObject
    | RequestIdAbsent
    | OperationAbsent
    | UnknownOperation
    | DatabaseIsAPath
    | UnknownSession
    | SecondSessionOnOneConnection

  datatype Operation =
    | OpenSession
    | CloseSession
    | Query
    | Begin
    | Commit
    | Rollback
    | Status
    | Shutdown

  datatype Hello = Hello(supportedVersions: seq<nat>, client: Option<string>)

  datatype Request = Request(
    version: nat,
    requestId: string,
    sessionId: Option<string>,
    operation: Operation,
    database: Option<string>,
    statement: Option<string>
  )

  function ParseOperation(name: string): Option<Operation> {
    match name
    case "open_session" => Some(OpenSession)
    case "close_session" => Some(CloseSession)
    case "query" => Some(Query)
    case "begin" => Some(Begin)
    case "commit" => Some(Commit)
    case "rollback" => Some(Rollback)
    case "status" => Some(Status)
    case "shutdown" => Some(Shutdown)
    case _ => None
  }

  function OperationName(operation: Operation): (name: string)
    ensures ParseOperation(name) == Some(operation)
  {
    match operation
    case OpenSession => "open_session"
    case CloseSession => "close_session"
    case Query => "query"
    case Begin => "begin"
    case Commit => "commit"
    case Rollback => "rollback"
    case Status => "status"
    case Shutdown => "shutdown"
  }

  // ---------------------------------------------------------------------------------------------
  // The handshake

  function U64s(values: seq<Json>): seq<nat> {
    if values == [] then
      []
    else
      (match AsU64(Some(values[0])) case Some(n) => [n] case None => []) + U64s(values[1..])
  }

  function DecodeHello(document: Option<Json>): Result<Hello, Rule> {
    match document
    case Some(Obj(members)) =>
      if AsStr(Get(members, "message")) != Some("hello") then
        Err(FirstMessageNotHello)
      else
        var versions := match Get(members, "supported_versions") case Some(Arr(values)) => U64s(values) case _ => [];
        Ok(Hello(versions, AsStr(Get(members, "client"))))
    case _ => Err(BodyNotAnObject)
  }

  function HighestCommon(offered: seq<nat>): (best: Option<nat>)
    ensures best.Some? ==> best.value in offered && best.value in SUPPORTED_VERSIONS
    ensures forall v :: v in offered && v in SUPPORTED_VERSIONS ==> best.Some? && v <= best.value
  {
    if offered == [] then
      None
    else
      var later := HighestCommon(offered[1..]);
      if offered[0] !in SUPPORTED_VERSIONS then later
      else if later.Some? && offered[0] <= later.value then later
      else Some(offered[0])
  }

  /** The highest version both sides speak, or the one refusal that carries a code. */
  function Negotiate(hello: Hello): (r: Result<nat, Rule>)
    ensures r.Ok? ==> r.value in hello.supportedVersions && r.value in SUPPORTED_VERSIONS
    ensures r.Ok? ==> forall v :: v in hello.supportedVersions && v in SUPPORTED_VERSIONS ==> v <= r.value
    ensures r.Err? <==> forall v :: v in hello.supportedVersions ==> v !in SUPPORTED_VERSIONS
    ensures r.Err? ==> r.error == VersionsDoNotIntersect
  {
    match HighestCommon(hello.supportedVersions)
    case Some(version) => Ok(version)
    case None => Err(VersionsDoNotIntersect)
  }

  function Handshake(document: Option<Json>): Result<nat, Rule> {
    match DecodeHello(document)
    case Ok(hello) => Negotiate(hello)
    case Err(rule) => Err(rule)
  }

  predicate SaysHello(document: Option<Json>) {
    document.Some? && document.value.Obj? && AsStr(Get(document.value.members, "message")) == Some("hello")
  }

  /** Whether a version is one of those a `hello` lists. Whatever else it lists is passed over. */
  predicate Offers(document: Option<Json>, version: nat) {
    && document.Some? && document.value.Obj?
    && match Get(document.value.members, "supported_versions")
       case Some(Arr(values)) => Num(Integer(version)) in values
       case _ => false
  }

  lemma {:induction false} OfferedIsListed(values: seq<Json>, version: nat)
    ensures version in U64s(values) <==> version < U64_LIMIT && Num(Integer(version)) in values
  {
    if values == [] {
    } else {
      OfferedIsListed(values[1..], version);
      assert values == [values[0]] + values[1..];
    }
  }

  lemma DecodedOffer(document: Option<Json>, version: nat)
    requires SaysHello(document) && version in SUPPORTED_VERSIONS
    ensures DecodeHello(document).Ok?
    ensures version in DecodeHello(document).value.supportedVersions <==> Offers(document, version)
  {
    assert version < U64_LIMIT;
    match Get(document.value.members, "supported_versions")
    case Some(Arr(values)) => OfferedIsListed(values, version);
    case _ =>
  }

  /**
   The handshake agrees on a version exactly when the first message is a `hello`, and the version is
   the highest that it offers and this build speaks. The refusal that carries a code is given exactly
   when a `hello` offers nothing this build speaks.
   */
  lemma HandshakeExactly(document: Option<Json>, version: nat)
    ensures Handshake(document) == Ok(version) <==>
            && SaysHello(document) && version in SUPPORTED_VERSIONS && Offers(document, version)
            && forall other :: other in SUPPORTED_VERSIONS && Offers(document, other) ==> other <= version
    ensures Handshake(document) == Err(VersionsDoNotIntersect) <==>
            SaysHello(document) && forall other :: other in SUPPORTED_VERSIONS ==> !Offers(document, other)
  {
    if SaysHello(document) {
      forall other | other in SUPPORTED_VERSIONS
        ensures other in DecodeHello(document).value.supportedVersions <==> Offers(document, other)
      {
        DecodedOffer(document, other);
      }
      var hello := DecodeHello(document).value;
      assert Handshake(document) == Negotiate(hello);
    }
  }

  // ---------------------------------------------------------------------------------------------
  // Requests

  predicate PathShaped(name: string) {
    || name == ""
    || name[0] == '@'
    || '/' in name
    || '\\' in name
    || name[0] == '.'
  }

  function DecodeOperation(members: Members, version: nat, id: string): (r: Result<Request, Rule>)
    ensures r.Ok? ==> r.value.requestId == id
  {
    match AsStr(Get(members, "operation"))
    case None => Err(OperationAbsent)
    case Some(name) =>
      match ParseOperation(name)
      case None => Err(UnknownOperation)
      case Some(operation) =>
        var database := AsStr(Get(members, "database"));
        if database.Some? && PathShaped(database.value) then
          Err(DatabaseIsAPath)
        else
          Ok(Request(version, id, AsStr(Get(members, "session_id")), operation, database,
                     AsStr(Get(members, "statement"))))
  }

  function DecodeObject(members: Members, outstanding: set<string>): (r: Result<Request, Rule>)
    ensures r.Ok? ==> r.value.requestId !in outstanding
  {
    match AsU64(Get(members, "server_protocol_version"))
    case None => Err(VersionAbsentAfterHandshake)
    case Some(version) =>
      if version !in SUPPORTED_VERSIONS then
        Err(VersionsDoNotIntersect)
      else if AsStr(Get(members, "message")) == Some("hello") then
        Err(FirstMessageNotHello)
      else
        match AsStr(Get(members, "request_id"))
        case None => Err(RequestIdAbsent)
        case Some(id) =>
          if id == "" || id in outstanding then Err(RequestIdAbsent)
          else DecodeOperation(members, version, id)
  }

  function DecodeRequest(document: Option<Json>, outstanding: set<string>): (r: Result<Request, Rule>)
    ensures r.Ok? ==> r.value.requestId !in outstanding
  {
    match document
    case Some(Obj(members)) => DecodeObject(members, outstanding)
    case _ => Err(BodyNotAnObject)
  }

  // ---------------------------------------------------------------------------------------------
  // The rules, one predicate each, and the order in which a message is held to them

  function MembersOf(document: Option<Json>): Members {
    match document
    case Some(Obj(members)) => members
    case _ => map[]
  }

  /** Whether a message breaks a rule, read off the message alone and whatever else it breaks. */
  predicate Breaks(rule: Rule, document: Option<Json>, outstanding: set<string>) {
    var members := MembersOf(document);
    match rule
    case BodyNotAnObject => !(document.Some? && document.value.Obj?)
    case VersionAbsentAfterHandshake => AsU64(Get(members, "server_protocol_version")) == None
    case VersionsDoNotIntersect =>
      var version := AsU64(Get(members, "server_protocol_version"));
      version.Some? && version.value !in SUPPORTED_VERSIONS
    case FirstMessageNotHello => AsStr(Get(members, "message")) == Some("hello")
    case RequestIdAbsent =>
      var id := AsStr(Get(members, "request_id"));
      id == None || id.value == "" || id.value in outstanding
    case OperationAbsent => AsStr(Get(members, "operation")) == None
    case UnknownOperation =>
      var name := AsStr(Get(members, "operation"));
      name.Some? && ParseOperation(name.value) == None
    case DatabaseIsAPath =>
      var name := AsStr(Get(members, "database"));
      name.Some? && PathShaped(name.value)
    case _ => false
  }

  const DECODING_ORDER: seq<Rule> := [
    BodyNotAnObject, VersionAbsentAfterHandshake, VersionsDoNotIntersect, FirstMessageNotHello,
    RequestIdAbsent, OperationAbsent, UnknownOperation, DatabaseIsAPath
  ]

  predicate FirstBroken(k: nat, document: Option<Json>, outstanding: set<string>)
    requires k <= |DECODING_ORDER|
  {
    && (forall i :: 0 <= i < k ==> !Breaks(DECODING_ORDER[i], document, outstanding))
    && (k < |DECODING_ORDER| ==> Breaks(DECODING_ORDER[k], document, outstanding))
  }

  /** A message is refused with the first rule it breaks, and accepted when it breaks none. */
  lemma RefusedWithFirstBrokenRule(document: Option<Json>, outstanding: set<string>, k: nat)
    requires k <= |DECODING_ORDER|
    ensures FirstBroken(k, document, outstanding) <==>
            var r := DecodeRequest(document, outstanding);
            if k == |DECODING_ORDER| then r.Ok? else r == Err(DECODING_ORDER[k])
  {
    var r := DecodeRequest(document, outstanding);
    var at := if r.Ok? then |DECODING_ORDER|
              else if r.error.BodyNotAnObject? then 0
              else if r.error.VersionAbsentAfterHandshake? then 1
              else if r.error.VersionsDoNotIntersect? then 2
              else if r.error.FirstMessageNotHello? then 3
              else if r.error.RequestIdAbsent? then 4
              else if r.error.OperationAbsent? then 5
              else if r.error.UnknownOperation? then 6
              else 7;
    assert FirstBroken(at, document, outstanding);
    if k < at {
      assert !Breaks(DECODING_ORDER[k], document, outstanding);
    } else if at < k {
      assert Breaks(DECODING_ORDER[at], document, outstanding);
    }
  }

  predicate Sendable(request: Request) {
    && request.version in SUPPORTED_VERSIONS
    && request.requestId != ""
    && (request.database.Some? ==> !PathShaped(request.database.value))
  }

  function Member(key: string, value: Option<string>): Members {
    match value
    case None => map[]
    case Some(text) => map[key := Str(text)]
  }

  /** The message a client sends for a request; `extra` is whatever else it says. */
  function EncodeRequest(request: Request, extra: Members): Json {
    Obj((extra - {"message", "session_id", "database", "statement"})
        + map["server_protocol_version" := Num(Integer(request.version)),
              "request_id" := Str(request.requestId),
              "operation" := Str(OperationName(request.operation))]
        + Member("session_id", request.sessionId)
        + Member("database", request.database)
        + Member("statement", request.statement))
  }

  lemma EncodedMembers(request: Request, extra: Members)
    ensures var members := EncodeRequest(request, extra).members;
            && Get(members, "server_protocol_version") == Some(Num(Integer(request.version)))
            && Get(members, "message") == None
            && AsStr(Get(members, "request_id")) == Some(request.requestId)
            && AsStr(Get(members, "operation")) == Some(OperationName(request.operation))
  {
  }

  lemma EncodedOptionalMembers(request: Request, extra: Members)
    ensures var members := EncodeRequest(request, extra).members;
            && AsStr(Get(members, "session_id")) == request.sessionId
            && AsStr(Get(members, "database")) == request.database
            && AsStr(Get(members, "statement")) == request.statement
  {
  }

  /** Every request a client may send is decoded to itself, whatever unknown members ride along. */
  lemma RequestRoundTrip(request: Request, extra: Members, outstanding: set<string>)
    requires Sendable(request)
    ensures DecodeRequest(Some(EncodeRequest(request, extra)), outstanding)
         == if request.requestId in outstanding then Err(RequestIdAbsent) else Ok(request)
  {
    EncodedMembers(request, extra);
    EncodedOptionalMembers(request, extra);
    assert request.version == 1;
  }

  /**
   A client that names a database by anything like a path is told so, if its request is in order
   otherwise: an empty name, one that begins with the sigil or a dot, one with a separator in it.
   Any other name is let through as it is.
   */
  lemma PathRefusedExactly(request: Request, name: string, extra: Members)
    requires request.version in SUPPORTED_VERSIONS && request.requestId != "" && request.database == Some(name)
    ensures DecodeRequest(Some(EncodeRequest(request, extra)), {}) ==
            if || name == ""
               || "@" <= name || "." <= name
               || exists i :: 0 <= i < |name| && (name[i] == '/' || name[i] == '\\')
            then Err(DatabaseIsAPath) else Ok(request)
  {
    EncodedMembers(request, extra);
    EncodedOptionalMembers(request, extra);
    assert request.version == 1;
  }

  /** The operation a message states, in the protocol's own word for it. */
  function StatedOperation(document: Option<Json>): Option<string> {
    AsStr(Get(MembersOf(document), "operation"))
  }

  const OPERATION_NAMES: set<string> := {
    "open_session", "close_session", "query", "begin", "commit", "rollback", "status", "shutdown"
  }

  /** What an accepted message asks for is what it states, word for word. */
  lemma StatedIsAsked(document: Option<Json>, outstanding: set<string>)
    requires DecodeRequest(document, outstanding).Ok?
    ensures var operation, stated := DecodeRequest(document, outstanding).value.operation, StatedOperation(document);
            && (operation == OpenSession <==> stated == Some("open_session"))
            && (operation == CloseSession <==> stated == Some("close_session"))
            && (operation == Query <==> stated == Some("query"))
            && (operation == Begin <==> stated == Some("begin"))
            && (operation == Commit <==> stated == Some("commit"))
            && (operation == Rollback <==> stated == Some("rollback"))
            && (operation == Status <==> stated == Some("status"))
            && (operation == Shutdown <==> stated == Some("shutdown"))
  {
  }

  /** An operation is unknown exactly when it is none of the eight. */
  lemma UnknownExactly(document: Option<Json>, outstanding: set<string>)
    ensures Breaks(UnknownOperation, document, outstanding) <==>
            StatedOperation(document).Some? && StatedOperation(document).value !in OPERATION_NAMES
    ensures DecodeRequest(document, outstanding) == Err(UnknownOperation) ==>
              StatedOperation(document).Some? && StatedOperation(document).value !in OPERATION_NAMES
  {
  }

  /** What an accepted request says is what the message says. */
  lemma DecodedFromMembers(document: Option<Json>, outstanding: set<string>)
    requires DecodeRequest(document, outstanding).Ok?
    ensures var request := DecodeRequest(document, outstanding).value;
            && Sendable(request) && request.requestId !in outstanding
            && AsU64(Get(MembersOf(document), "server_protocol_version")) == Some(request.version)
            && AsStr(Get(MembersOf(document), "request_id")) == Some(request.requestId)
            && AsStr(Get(MembersOf(document), "session_id")) == request.sessionId
            && AsStr(Get(MembersOf(document), "operation")) == Some(OperationName(request.operation))
            && AsStr(Get(MembersOf(document), "database")) == request.database
            && AsStr(Get(MembersOf(document), "statement")) == request.statement
  {
  }
}

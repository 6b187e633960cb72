# nostdb-server, verified

`nostdb-server` is a per-user local daemon: it holds a single-instance lock, listens on a Unix
socket, keeps a catalog of named databases, and serves each connection from a handshake through
sessions and transactions to its end. This project models that program in Dafny 4.11 and proves what
its protocol, its framing, its catalog and its lifecycle promise. `dafny verify dfyconfig.toml`
verifies all of it.

## How the model is built

**The connection.** `Protocol.dfy` is a flat automaton with an explicit mode (greeting, idle, in a
session, in a transaction, finished) that takes one step for each frame. `Serve.dfy` is the program in
its own form: a request loop, and nested in it a second loop that owns the transaction. It keeps no
mode. Its slot is an object with two fields, its transaction is the Engine's, and it leaves its loops by
many early returns. It is proved to end in exactly the state the automaton ends in, with the same bytes
sent, the same journal and the same `Ended` value. Theorems about conversations (`Transcripts`,
`Replies`, `Outcomes`, `SessionNaming`, `Answers`, `Generations`) are proved about the automaton, by one
induction principle (`Automaton.dfy`), and so hold of the program. A transcript is the frames, requests
and replies of a conversation, together with two things no reply need state: the path of a session that
was opened, and what the transaction held after a statement ran. `Answers.dfy` tabulates what each
request is told and what it leaves behind, without a word about how the steps compute it, and carries
the tables over to whole conversations. `Witnesses.dfy` holds runs, from the first frame on, in which a
promise fails.

**What a connection meets and does not decide** is a `World`: how JSON text is read and replies are
printed, what every Engine call returns, what the catalog file holds whenever it is read, which write
calls fail and after how many bytes, and the configured limits. These are arbitrary functions of the
position of the call, and before every Engine call other connections may publish commits of their own,
so the theorems hold of every Engine behaviour and every schedule of failures. The store is a journal
of publications; nothing in it is ever taken back, and each is marked as this connection's own or
somebody else's.

**The transport** is a finite schedule of read results (some bytes, an interruption, a hard error).
`Frame.dfy` says what the signals that remain on it decode to, once it is forgotten how they were cut
into reads. `FrameIO.dfy` proves the reading loops, over real buffers, against that, and `Chunking.dfy`
says which schedules have the same signals.

**The catalog** is a class whose fields `insert` and `remove` update, proved against functions on its
contents. `CatalogTheorems.dfy` proves what the functions promise over all documents and all
histories. `CatalogStore.dfy` replaces the file one system call at a time, with files numbered as
inodes are, among any number of other writers, readers, failures and crashes. `CatalogUpdates.dfy` puts
load, change and store together, for any number of processes at once.

**The lifecycle** (`Lifecycle.dfy`) is a machine of processes that open the lock file, try the lock,
unlink and bind the socket, serve, fail and crash in any order. `Daemon.dfy` is the code, with
everybody else acting between any two of its calls; each call it makes is a step of the machine.
`Shutdown.dfy` does the same for the accept loop, its stop flag and the connection that wakes it.

## Where the code keeps less than it seems to promise

The model follows the code. These are the places where that matters, and what is proved instead.

- A request that names another session is refused (src/session.rs:189-206) only where the session is
  resolved at all. `ForeignSessionRefusedExactly`: exactly outside a transaction, and for `query` and
  `begin`. Inside a transaction nothing looks at `session_id` (src/serve.rs:372-449), so a statement for
  another session runs in this one's (`ForeignStatementRuns`, `RegionIgnoresName`); and `close_session`
  for another session closes this one's (src/serve.rs:228-231, `ForeignCloseCloses`).
- A query without a statement inside a transaction is answered, and its `request_id` stays outstanding
  for the rest of the region (src/serve.rs:405-409), so the same message sent again is refused.
  `StatementlessTwice` is that run. `OutstandingInRegion` says exactly which identifiers are
  outstanding, and `RegionRefusesStuckIds` that this set is all that a region refuses beyond what the
  outer loop does.
- `frame_too_large` is answered in the request loop only (src/serve.rs:125-142). During the handshake
  and inside a transaction an over-long frame ends the connection without a word.
  `RepliesMatchFrames` states both.
- The row ceiling is looked at after an auto-commit has published (src/serve.rs:492-496 and 523-535),
  so that one error can follow a committed write. `RowLimitAfterCommit` says exactly when it does, by
  what the Engine does, and `ErrorAfterCommit` is such a run.
- A reply that does not fit the frame maximum is not written at all (src/frame.rs:127-129), and some
  callers ignore that it was not. `LossesThatEnd` says which lost replies end a connection and which
  do not.
- `is_running` takes the lock to ask its question (src/lib.rs:157-165), so "already running" shows only
  that some process held the lock. `AlreadyRunningExactly` says so, and `ProbeLooksLikeADaemon` is a run
  in which that process was no daemon.
- Session identifiers come from a 64-bit counter (src/session.rs:164-165). It is modelled as wrapping,
  as it does in a release build, and identifiers repeat after exactly a whole turn
  (`MintedDistinct`, `ClosedNeverResolves`). A debug build would panic there instead.
- The repository's README.md promises serialized catalog mutation (README.md:23). The code serializes
  nothing between a load and the store that follows it. `InsertionLost` is a run of two processes that
  loses an insertion. `NoInsertionLostExactly`: insertions of new names all survive exactly when each
  load opened the file after the rename before its own; `LineageSurvives` says for any changes what does.
- The same README.md says that only scaffolding exists (README.md:51). The code has a working daemon.
- `status` is documented to report an uptime (src/message.rs:164). The reply carries none
  (src/serve.rs:233-241), and neither does the model's `StatusReport`.
- A catalog name the protocol lets through need not be one a catalog can hold
  (`AddressableNotRegistrable`); the direction that matters to a client does hold
  (`RegisteredNameOpens`).

## Model

| member | source | states |
|---|---|---|
| Serve.ServeConnection | src/serve.rs:81-181 | The two nested loops are the flat automaton: for every input, Engine behaviour and failure schedule they end with the automaton's `Ended`, bytes sent, unread input and journal, and with no transaction open |
| Serve.RequestLoop | src/serve.rs:112-180 | At every head of the outer loop no transaction is open, nothing is outstanding, and the rest of the program's run is the rest of the automaton's |
| Serve.AnswerRequest | src/serve.rs:154-179 | Dispatching, replying and running a region end the connection, or leave it, where the automaton's step and all that follows it do; so the region's own `resolve` never refuses a `begin` that was accepted |
| Serve.Dispatch | src/serve.rs:190-287 | The program's own dispatch of a request outside a transaction, with its slot, Engine and catalog objects, is the automaton's, for every operation and every error path; what that answers is `Answers.RequestsAreAnswered` |
| Serve.OpenSession | src/serve.rs:199-226 | The catalog is read afresh for each `open_session`, and each of its failures has its own reply |
| Serve.RunOne | src/serve.rs:460-510 | One statement in its own transaction: which reply, what is published, and that no transaction is open afterwards |
| Serve.RunTransactionRegion | src/serve.rs:299-457 | A region ends with no transaction open and the slot untouched, in the automaton's state for each of its three ends |
| Serve.RegionLoop | src/serve.rs:342-457 | At every head of the nested loop exactly the transaction the automaton is in is open, based at the generation `begin` reported |
| Serve.AnswerInRegion | src/serve.rs:370-456 | One request of a region: the transaction is still open if the loop goes on, and consumed if it does not |
| Serve.RunInRegion | src/serve.rs:404-424 | A statement in an open transaction publishes nothing and leaves the transaction open with the Engine's new overlay |
| Protocol.Next | src/serve.rs:115-457 | Every step reads one frame; one that answers uses up at least four bytes, says one thing, and sends exactly that |
| Protocol.Run | src/serve.rs:81-181 | Every conversation over a finite schedule comes to an end |
| Transcripts.ConversationEnds | src/serve.rs:115-180 | Both loops together go round at most once for every four bytes of input and once more |
| Transcripts.AnswersAreAfforded | src/serve.rs:115-180 | No conversation has more replies than a quarter of its input's bytes |
| Transcripts.TranscriptDeterminesState | src/serve.rs:297-298 | At every point of every conversation the frames, requests and replies so far, with the opened paths and the changes each statement left, determine mode, session, open transaction and everything published: there is no state in which a transaction is believed open and is not |
| Transcripts.CommitOnlyDurability | src/serve.rs:330-402 | After any conversation this connection has added to the store, in order, exactly the effects its transcript says were committed; every other end of a region adds nothing, and a commit stands though its reply is lost. Generations keep advancing |
| Transcripts.NextAgrees | src/serve.rs:115-457 | One step keeps the daemon's mode and the transcript's view in agreement |
| Transcripts.NextAdds | src/serve.rs:115-457 | One step publishes exactly what is heard of it |
| Transcripts.OneRunAdds | src/serve.rs:460-510 | An auto-committed statement publishes its overlay or nothing |
| Replies.RepliesEchoRequests | src/serve.rs:95-179 | Every reply answers its own frame in the light of the transcript before it: if a request decodes, with the identifiers then outstanding, it echoes that request's `request_id`; if none does, it carries none and the rule the decoder gives; the first message gets the handshake's reply |
| Replies.RepliesMatchFrames | src/serve.rs:99-181 | The frames answered are the first ones of the input, once each and in order; if no write this conversation makes fails and its replies fit, they are all complete frames of a conversation that is not refused or shut down, plus one `frame_too_large` exactly for an over-long frame outside the handshake and a transaction |
| Replies.OverlongIsRefusedLast | src/serve.rs:125-142 | Whole frames and then any length above the maximum: if no write fails and the replies fit, each frame is answered, and then, past the handshake and outside a transaction, the refusal of the over-long one is the last reply; otherwise there is no word of it |
| Replies.ClientReadsReplies | src/serve.rs:615-620 | If no write this conversation makes fails and its replies fit, reading the bytes sent gives back every reply in order and then a clean end |
| Replies.RepliesWithinCeiling | src/serve.rs:520-535 | No reply of any conversation carries more rows than the ceiling |
| Replies.NextAccounts | src/serve.rs:115-457 | One step keeps the account of frames answered and frames still to come |
| Outcomes.AutoCommitAgrees | src/serve.rs:460-546 | Outside a region an ok reply carries a write summary exactly when one commit was published, with its generation, and otherwise the generation begun at; an error means nothing was published, except the row ceiling's; and a commit's generation is above the one begun at |
| Outcomes.RowLimitAfterCommit | src/serve.rs:492-535 | An error reply comes with a publication exactly when the Engine accepts the statement, begins, runs it to a changed overlay and more rows than the ceiling, and commits |
| Witnesses.ErrorAfterCommit | src/serve.rs:523-535 | Such a run: the reply is the row ceiling's error, and the write is published |
| Outcomes.LossesThatEnd | src/serve.rs:146-179 | A reply that cannot be sent ends the connection, except exactly the replies whose loss is ignored |
| Outcomes.LastReplyTellsTheEnd | src/serve.rs:95-106 | A conversation ends as refused, or as shut down, exactly when that is the last thing it said |
| Outcomes.OutstandingInRegion | src/serve.rs:342-451 | A region's outstanding set is at every point exactly the identifiers of the queries without a statement it has already answered |
| Outcomes.RegionRefusesStuckIds | src/message.rs:347-352 | A message that is otherwise accepted is refused in a region exactly when its identifier is in that set |
| Outcomes.StatementlessTwice | src/serve.rs:405-409 | The run that shows an answered identifier is not always reusable in a region |
| Outcomes.SessionIdsNeverReused | src/session.rs:164-165 | Over every conversation two identifiers handed out are equal exactly when a whole turn of the 64-bit counter lies between them |
| Outcomes.ChunkingIsInvisible | src/frame.rs:142-154 | Any two schedules with the same bytes, and the same hard errors at the same offsets, give the same replies, bytes sent, publications and end of the conversation |
| Answers.RequestsAreAnswered | src/serve.rs:190-546 | Every request in every mode: what it is told, what it leaves in the store and what mode follows. Outside a transaction `commit` and `rollback` are errors that change nothing, `status` counts the session and names the endpoint, `close_session` says whether there was one, and a statement is told its every row or why not; inside one only `commit` and `rollback` end it, and a statement that fails keeps what it left |
| Answers.ConversationIsAnswered | src/serve.rs:112-457 | Every reply to a request, in every conversation, is so given, for the session, the transaction and the publications that the transcript before it tells |
| Answers.RepliesBefitTranscript | src/serve.rs:228-456 | No reply contradicts the transcript: a commit, a rollback or a base is reported only where the transcript has a transaction open, with that base; a status counts the one session it has open; a close says whether it has one |
| Answers.RepliesSpeakOneVersion | src/serve.rs:95-143 | Every reply of every conversation states the one version that its welcome agreed on |
| Answers.CommittedExactly | src/serve.rs:372-393 | A commit is reported exactly where a transaction is open, the request is `commit` and the Engine accepts it, with the generation under which all that the transaction held is then published |
| Answers.PublishedByTheWord | src/serve.rs:370-396 | Inside a transaction this connection publishes only by a frame that states the word `commit`; one that states `commit` or `rollback`, and is accepted, ends the transaction as it says |
| Answers.RegisteredNameDecodes | src/message.rs:369-377 | A request that names what the catalog holds is decoded as it was meant |
| Answers.RegisteredNameOpens | src/serve.rs:199-226 | A well-formed `open_session` for a name the catalog holds reaches the slot: with a session it is refused as a second; without one, where the Engine can open the database, the session is then held under the next identifier at the path the catalog gives for the name |
| SessionNaming.ForeignSessionRefusedExactly | src/session.rs:189-206 | A request that names another session than the one held is refused for it exactly outside a transaction, and for `query` and `begin` |
| SessionNaming.OwnSessionNeverRefused | src/session.rs:189-206 | A request that names the session held, or none, is never refused for it |
| SessionNaming.RegionIgnoresName | src/serve.rs:372-449 | Inside a transaction a request has the reply and the effect it would have if it named no session |
| SessionNaming.ServeIgnoresName | src/serve.rs:228-243 | So has every request outside one but `query` and `begin` |
| Witnesses.ForeignStatementRuns | src/serve.rs:404-418 | After a hello, an `open_session` and a `begin`, a statement that names another session runs in this connection's transaction |
| Witnesses.ForeignCloseCloses | src/serve.rs:228-231 | After a hello and an `open_session`, a `close_session` that names another session closes this connection's |
| Witnesses.ScriptedWorld | src/serve.rs:81-181 | There is a world in which a client can hold those two conversations |
| Generations.RegionCommitIsNewer | src/serve.rs:330-381 | A region commits above the generation its `begin` reported, after any number of statements and whatever others publish; if it changed nothing, at it or above |
| Generations.ConversationSound | src/serve.rs:318-381 | At every point of every conversation the generations of each database advance, and an open transaction was begun at one its database has reached |
| Engine.CommitAdds | src/serve.rs:373-393 | A commit adds the transaction's effects when it is accepted and nothing when it is refused, under generations that keep advancing |
| Engine.CommitAboveBase | src/serve.rs:373-381 | A commit is at or above the generation it was based on, and above it if it changed something |
| Engine.Engine.Begin | src/serve.rs:318-330 | A transaction is active exactly when `begin` succeeded |
| Engine.Engine.Run | src/serve.rs:412-416 | A run replaces the transaction's overlay and publishes nothing of its own |
| Engine.Engine.Commit | src/serve.rs:373-392 | A commit consumes the transaction, whether it publishes or is refused |
| Engine.Engine.Rollback | src/serve.rs:394-395 | A rollback discards the transaction and leaves the store alone |
| Session.Slot.Open | src/session.rs:145-177 | A second session, an unknown name and an unreachable database are refused in that order and leave the slot alone; otherwise, and only then, the session is held under the next identifier, with the name asked for and the path the catalog has for it |
| Session.Slot.Resolve | src/session.rs:189-206 | A request that names no session gets the connection's; one that names another is refused |
| Session.Slot.Close | src/session.rs:213-215 | Closing leaves no session and reports whether there was one |
| Session.SessionIdInjective | src/session.rs:164-164 | Identifiers of different counter values differ |
| Session.MintedInOrder | src/session.rs:145-177 | Over every run of opens, failed opens and closes the k-th identifier is that of the counter's k-th value |
| Session.MintedDistinct | src/session.rs:145-215 | Two minted identifiers are equal exactly when whole turns of the counter lie between them |
| Session.HistoryHoldsLastMinted | src/session.rs:164-172 | Whatever its history, the session a slot holds has the identifier minted last |
| Session.ClosedNeverResolves | src/session.rs:189-215 | A closed session's identifier resolves again only if a session minted whole turns of the counter later is open |
| Frame.PrefixRoundTrip | src/frame.rs:97-130 | A length written big-endian reads back |
| Frame.PrefixIsCanonical | src/frame.rs:97-130 | Four bytes are the prefix of the length they read as, and of no other |
| Frame.PrefixOrder | src/frame.rs:97-130 | The prefix is big-endian: lengths are ordered as their prefixes are, byte by byte |
| Frame.EncodedFrameReads | src/frame.rs:90-134 | A written frame reads back and leaves what follows it |
| Frame.OverlongReads | src/frame.rs:97-100 | Four bytes that declare more than the maximum are refused as too large, with both numbers, and nothing after them is read |
| Frame.FrameReadsExactly | src/frame.rs:78-113 | All a read can come to, each exactly when: a body, an over-long length, ill-formed text, a clean end, a frame cut off by the end or by an error, or that error; said of the signals alone, with what is left unread |
| Frame.OverlongStream | src/frame.rs:90-113 | Whole frames and then such a length read as those frames, and reading ends there |
| Frame.FrameIsEncoded | src/frame.rs:90-113 | A frame that is read is the encoding of its body, followed by the rest |
| Frame.StreamRoundTrip | src/frame.rs:90-134 | Bodies within both maxima, written in order, read back as the same list and then a clean end |
| Frame.StreamIsCanonical | src/frame.rs:90-134 | A stream read to a clean end is the encoding of what was read |
| Frame.PrefixLaw | src/frame.rs:142-154 | The first n bytes of a stream yield its whole frames, then `Closed` on a boundary and `Truncated` inside a frame |
| Frame.WholeFramesIsLargest | src/frame.rs:142-154 | The whole frames of that law are the most whose encoding is at most n bytes long |
| Chunking.RechunkingKeepsSignals | src/frame.rs:145-151 | Splitting or interrupting a read leaves the signals of the schedule alone |
| Chunking.SameSignalsExactly | src/frame.rs:145-151 | Two schedules have the same signals exactly when they deliver the same bytes and the same hard errors at the same offsets |
| FrameIO.ReadExactOrClosed | src/frame.rs:142-154 | The loop fills the buffer with the next signals, however they are chunked, and tells a clean end from a truncated one |
| FrameIO.ReadExact | src/frame.rs:104-110 | The standard library's loop of the same kind, by its outcomes |
| FrameIO.ReadFrame | src/frame.rs:78-113 | The reading code over real buffers makes of any schedule what `FrameReadsExactly` says of its signals, however they are chunked; the buffer made for a body is never larger than the maximum, and there is none for an over-long one |
| FrameIO.WriteFrame | src/frame.rs:121-134 | A body that does not fit is not sent at all; otherwise prefix, body and flush, up to the call that fails |
| FrameIO.WriteOf | src/frame.rs:121-134 | A reported success means the whole encoding was sent; a refused body leaves the wire alone |
| FrameIO.WriteExactly | src/frame.rs:121-134 | Writing succeeds exactly when the body fits and none of the three calls fails; otherwise the error is that of the first that failed, no later one is made, and the peer has got a beginning of the frame |
| FrameIO.Stream.Read | src/frame.rs:145-150 | One read call moves signals from the schedule to the buffer and loses none |
| Utf8.Utf8ExactlyEncodings | src/frame.rs:112-112 | A body is accepted exactly when it is the UTF-8 encoding of some Unicode scalar values (RFC 3629, section 4) |
| Message.StatedIsAsked | src/message.rs:172-186 | An accepted message has an operation exactly when it states that operation's published word, for each of the eight |
| Message.UnknownExactly | src/message.rs:172-186 | An operation is unknown exactly when the word stated is none of those eight |
| Message.Negotiate | src/message.rs:278-295 | The version agreed is the highest both speak, and there is none exactly when none is common |
| Message.HandshakeExactly | src/serve.rs:95-106 | A version is agreed exactly when the first message is a `hello` that offers it and it is the highest both speak; the refusal for disjoint versions is given exactly when no offered version is spoken |
| Message.RefusedWithFirstBrokenRule | src/message.rs:308-393 | A message is refused with the first rule it breaks, in the decoder's order, and accepted exactly when it breaks none |
| Message.RequestRoundTrip | src/message.rs:308-393 | Every request a client may send decodes to itself, whatever unknown members ride along |
| Message.PathRefusedExactly | src/message.rs:453-468 | A request that is in order otherwise is refused for its database exactly when the name is empty, begins with the sigil or a dot, or has a separator in it |
| Message.DecodedFromMembers | src/message.rs:311-392 | Every field of an accepted request is what its message says, the version one this build speaks and the database no path |
| Catalog.Catalog.Load | src/catalog.rs:156-162 | An absent file, and no other, is the empty catalog for want of a document; an unreadable one is an error of its own; any other is what the parser makes of it |
| Catalog.Catalog.Parse | src/catalog.rs:169-263 | The parser with its accumulators computes the catalog, or all problems |
| Catalog.Catalog.Insert | src/catalog.rs:289-317 | The new contents and the problems reported; a refused insertion changes nothing |
| Catalog.Catalog.Remove | src/catalog.rs:320-322 | The new contents, and whether the name was there |
| Catalog.Catalog.ToDocument | src/catalog.rs:326-347 | The document is the contents with their unknown members |
| Ordering.LeExactly | src/catalog.rs:233-247 | Key order: one name is at or before another exactly if it begins it or has the smaller character where they part |
| CatalogTheorems.ListedIsReport | src/catalog.rs:233-247 | Each offending entry is reported exactly once, in key order, and nothing else is |
| CatalogTheorems.ReportIsUnique | src/catalog.rs:233-247 | Being such a report determines the list |
| CatalogTheorems.ParseAcceptsExactly | src/catalog.rs:213-262 | A document of a supported version is accepted exactly when it meets the name, path and shape rules |
| CatalogTheorems.ParseReportsEveryProblem | src/catalog.rs:213-262 | Otherwise it is rejected with one problem for `databases`, if that is missing or ill-typed, and one for each offending entry |
| CatalogTheorems.RejectedExactly | src/catalog.rs:169-211 | No JSON, no object, no version, and a version that is no positive integer or is not read here: each is the one problem reported exactly for such documents |
| CatalogTheorems.UnsupportedExactly | src/catalog.rs:201-209 | The code for an unsupported version is given exactly where the version is a whole number above one |
| CatalogTheorems.DatabasesRejectedExactly | src/catalog.rs:213-231 | A missing `databases` and one that is no object are reported, as such and alone, exactly where they occur |
| CatalogTheorems.EntryReadExactly | src/catalog.rs:429-452 | An entry is read exactly from an object whose `path` is an absolute path, with all its other members |
| CatalogTheorems.EntryRefusedExactly | src/catalog.rs:416-452 | And each reason it is refused for is given exactly where it applies |
| CatalogTheorems.PrintedReads | src/catalog.rs:326-347 | A well-formed catalog prints to a document that parses back to it |
| CatalogTheorems.ReadPrints | src/catalog.rs:169-263 | An accepted document gives a well-formed catalog that prints back as that document |
| CatalogTheorems.ParseAndPrintAreInverse | src/catalog.rs:169-347 | A document parses as a catalog exactly when the catalog is well formed and prints as that document |
| CatalogTheorems.AfterKeepsWellFormed | src/catalog.rs:289-347 | No history of insertions, removals and rewrites lets a catalog's unknown members hold one of its own |
| CatalogTheorems.HistoryPreserves | src/catalog.rs:289-347 | Over any history top-level unknown members never change and each name refers to exactly what its own part of the history says, unknown members included |
| CatalogTheorems.InsertedExactly | src/catalog.rs:289-317 | An insertion is accepted exactly for a registrable name and an absolute path; then the name has the path and every other entry is as it was |
| CatalogTheorems.ReachableReadsBack | src/catalog.rs:156-347 | Every catalog reached from a loaded file reads back from what it prints |
| CatalogTheorems.RegistrableExactly | src/catalog.rs:391-413 | The name rule as a grammar: a letter or digit, then letters, digits, underscores and hyphens |
| CatalogTheorems.NameRefusedExactly | src/catalog.rs:391-413 | A name is refused for the first rule it breaks, and for the first character that breaks one |
| CatalogTheorems.RegisteredNamesAreAddressable | src/catalog.rs:391-413 | No name held by a reachable catalog is refused as a path |
| CatalogTheorems.AddressableNotRegistrable | src/message.rs:453-468 | The converse fails, with the name that shows it |
| CatalogStore.Store | src/catalog.rs:360-387 | Beside any interference: it succeeds exactly when none of its calls fails, by a rename of the whole text as the last of them, and a failure has renamed nothing |
| CatalogStore.WriteTemporary | src/catalog.rs:376-377 | When the write succeeds the temporary file holds the whole text and nothing else, however few bytes each call takes |
| CatalogStore.PublishedIsNeverWritten | src/catalog.rs:376-378 | A file no temporary path names is never written again |
| CatalogStore.PublishedForEver | src/catalog.rs:376-378 | The same, through any run |
| CatalogStore.AtomicReplacement | src/catalog.rs:360-387 | Over every interleaving and crash the path names the last catalog renamed there, and a reader gets, whole, the catalog that was in place when it opened the path |
| CatalogStore.LoadFindsOneStore | src/catalog.rs:156-162 | A load beside stores reads the very text last renamed before it opened the path, or what was there at first, and makes of it the catalog whose document that text is |
| CatalogStore.SharedTemporaryTears | src/catalog.rs:373-376 | Were the temporary name the same for two writers, this run would leave a catalog in place that is neither text |
| CatalogUpdates.LineageSurvives | src/catalog.rs:156-387 | Over any run of load, change and store by any processes, the catalog in place is the first one with exactly the changes of the last update's lineage: it, the update it had loaded, and so on back |
| CatalogUpdates.SerializedExactly | src/catalog.rs:373-378 | All changes are in that lineage, in the order of the renames, exactly when each load opened the file after the rename before its own |
| CatalogUpdates.NoInsertionLostExactly | src/catalog.rs:289-387 | Insertions of new names are all in the catalog at the end exactly when each load opened the file after the rename before its own |
| CatalogUpdates.InsertionLost | src/catalog.rs:289-387 | A run of two processes that loses an insertion |
| Lifecycle.SingleInstance | src/lock.rs:54-77 | Over every interleaving of starts, probes, failures and crashes at most one process holds the lock |
| Lifecycle.OnlyHolderTouchesSocket | src/endpoint.rs:88-128 | Only the one lock holder unlinks or binds the socket |
| Lifecycle.LiveSocketIsKept | src/endpoint.rs:77-128 | While a daemon serves, whatever others do, the path names the socket it bound and it stays the only holder |
| Lifecycle.LeftoversNeverBlock | src/endpoint.rs:109-115 | Where no process holds the lock a new process becomes the daemon, whatever files are lying about |
| Lifecycle.AlreadyRunningExactly | src/lib.rs:77-81 | A start or a probe reports a running daemon exactly when some process holds the lock |
| Lifecycle.ProbeLooksLikeADaemon | src/lib.rs:157-165 | That process may be a probe: the run that shows it |
| Lifecycle.RemovedLockFileBreaksIt | src/lock.rs:17-25 | Were the lock file removed, a second daemon could take the socket path from the first |
| Lifecycle.GuardFirstBreaksIt | src/main.rs:41-66 | Were the guard dropped before the listener, the old process could unlink the new daemon's socket |
| Daemon.Acquire | src/lock.rs:54-77 | The lock is held, or some process was found to hold it when it was tried, exactly when neither call fails; an error is that of the first call that failed, and holds no lock |
| Daemon.Bind | src/endpoint.rs:100-128 | Under the lock, unlink, bind and restrict, in that order, up to the first that fails; it is an error exactly when one does |
| Daemon.Start | src/lib.rs:73-91 | It is an error exactly when one of its calls fails, and then the lock is released. If none does, this process is the one lock holder with the path naming its socket, unless some process held the lock when it tried it, which is what it then reports; it locks before it binds |
| Daemon.IsRunning | src/lib.rs:157-165 | It is an error exactly when opening or trying the lock fails; otherwise the answer is whether some process held the lock when it was tried, and a probe that acquired it has released it |
| Daemon.RunDaemon | src/main.rs:41-66 | A daemon that stops drops its listener before its guard, and the path it then unlinks names the one socket it bound; it fails only where a call of its start does, and reports another exactly where some process held the lock |
| Shutdown.NoLostWakeup | src/lib.rs:121-147 | In every reachable state with the flag set the loop has ended, will read the flag, has a connection to accept, or will be woken; and at most one connection past the check is served afterwards |
| Shutdown.LoopWindsDown | src/lib.rs:121-147 | Once the flag is set the loop takes at most three more steps |
| Shutdown.LoopIsNotStuck | src/lib.rs:139-142 | Until it has ended, it or the thread that wakes it can take a step that brings the end nearer |
| Shutdown.LoopCanEnd | src/lib.rs:121-147 | From every reachable state with the flag set there is a run of the loop's own steps and at most one wake connection, four steps at most, that ends it |
| Shutdown.AcceptUntilShutdown | src/lib.rs:109-147 | The loop ends without error only with the flag set, with an error only with it clear and `accept` failing, and with at most one late connection; every turn it takes goes to waiting while no connection is queued, to giving a connection its thread, or to its end |

## Left out

- `nostdb-core`: query parsing and execution, storage, cancellation and how commits conflict. Every outcome is an oracle's choice by the position of the call. A transaction is a value: its path, its base generation and its uncommitted changes.
- The exclusive borrow that keeps a second transaction from being begun is a precondition of the Engine's `Begin`, which the program is proved to meet.
- JSON text: `serde_json`'s parser and printer are arbitrary functions between texts and JSON values. A duplicate key in a text is whatever the parser makes of it.
- The wording of messages, diagnostics and refusals. Replies keep their rule, code and kind, and two replies that differ in wording alone are one.
- Real time: a query timeout is one way for the Engine to return an error.
- A write call reports success or one failure with the bytes that got out before it; the short writes inside `write_all` are not modelled one by one.
- Endless input: a transport's schedule of reads, and the schedule of the accept loop's surroundings, are finite.
- Fairness: that a thread which can take a step will take it is not modelled. `LoopWindsDown` and `LoopIsNotStuck` state what the loop does for its part.
- Connection threads are detached, and nothing is said of them after the accept loop ends beyond what holds of every connection.
- Connecting to a bound listener is assumed to enqueue a connection.
- `File::try_lock` is assumed to exclude per file, and the operating system to release a lock when its holder ends.
- A path is a UTF-8 string and equal to another when the strings are equal; `PathBuf` also ignores repeated and trailing separators, and prints a path that is not UTF-8 with replacement characters.
- Creating the directories of the lock, the socket and the catalog is part of the first call that can fail; file modes, `HOME` lookup, Windows named pipes, command-line handling and src/diagnostic.rs are not modelled.
- The default frame maximum of 8 MiB (src/frame.rs:17) is not a lower bound in the code, so every maximum is allowed here. A maximum above 32 bits, which the code's type rules out, is allowed too and behaves like the largest 32-bit one.
- `Catalog::names` and `is_empty`, and the accessors of sessions and entries.
- The command that adds a name to the catalog lives in another repository. An update is modelled as the load, change and store that src/catalog.rs offers it, with the store's text any text that reads back as its document.
- A catalog's file is read in one step of the connection's run; how that read goes on beside concurrent stores is what `CatalogStore` models.

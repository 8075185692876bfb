# An incremental backup protocol, modelled and proved

The repository is a backup system: a client watches a directory and keeps a copy of it on a server
that holds, per user, a data directory and an index of path -> SHA-256 hash. This project models the
server session, the client's request driver, the watcher with its queue and its throttle, and the
wire format between them, and proves what the protocol keeps, over whole runs and for every
interleaving and every segmentation of the two byte streams.

How it is laid out, from the bottom up:

- `wire.dfy`, `numbers.dfy`, `protocol.dfy`, `hashing.dfy`, `node.dfy`: the codec, printed numbers,
  replies, hashes, paths. `shared_map.dfy`, `jobs.dfy`, `store.dfy`: the shared map, the job queue,
  the data directory and the index.
- `orders.dfy`: walking a set in whatever order.
- `session.dfy`: one handler of the server as a function from store and message to store, replies and
  next operation, and class `Session`, whose methods do it step by step and are proved against those
  functions. `exceptions.dfy`: when an exception leaves a handler. `halves.dfy`: the handlers cut in two
  where they delete. `multi_session.dfy`: any number of sessions over one store.
- `answers.dfy`: what each request is answered with, letter by letter, and what each reply does.
- `client.dfy`: the driver of the client, class `Client`, over a connection that delivers its bytes in
  arbitrary parts. `snapshot.dfy`: what a snapshot is on both ends.
- `rpc.dfy`: one exchange of client and server as one atomic step. `calls.dfy`, `lockstep.dfy`,
  `progress.dfy`: client and session over two byte streams, proved to implement `rpc.dfy`, never to
  fall out of step, and to end.
- `watcher.dfy`: the scan, declaratively and as three mutating passes. `callback.dfy`: the callback.
  `throttle.dfy`: the three client threads interleaved. `convergence.dfy`: scan, drain, and so on.
  `arrival.dfy`: what that brings to the server.

`dafny verify dfyconfig.toml` checks everything.

## What the code does not keep

Where a property that one would expect is false of the code, the model keeps the code as it is, gives
the failing case, and proves the exact condition.

- **A PUT of an empty file can hang for ever.** The server sends both replies at once and the client's
  second header read clears the second one (server/session.cpp:295-296, client/client.cpp:22).
  `PutEndsExactly`: it ends on every schedule if and only if the size is at least 1.
- **Snapshots can stop for good.** The producer enqueues SNAPSHOT before it marks the key
  (client/main.cpp:219-220); if the job is finished in between, the key is never removed.
  `CanAskExactly`, `StuckExactly`, `StuckIsReachable`, `NoSnapshotOnceStuck`.
- **A snapshot of 10000 bytes or more can be read past its buffer** (client/client.cpp:300-314).
  `SnapshotSafeExactly`: never, for any segmentation, if and only if it is shorter.
- **Paths that end in `#`, or contain `##` or CR LF, are read wrongly.** `ParamsExact` and
  `SnapshotRoundTrip` give the exact conditions. A PUT of a path ending in `#` throws out of the
  server's handler, and it alone among otherwise sane ones: `HashAtEndExactly`.
- **A short write of the client loses the rest of its chunk** (client/client.cpp:275-278).
  `SentAsIsExactly`: files arrive as they are if and only if every write sends its whole chunk;
  `EndToEndPut` says what is kept all the same.
- **A GET whose stream ends before the announced length never returns**: the reader gets no bytes and
  asks again (client/client.cpp:365-380). `Clients.Client.HandleResponse` has this if and only if.
- **A first reply to a PUT that is neither `OK` nor an error leaves its key pending**
  (client/client.cpp:98-117). `Clients.Client.HandleRequest` has this, and PATCH, as its only cases
  in which a key is not removed.
- **One file can have two jobs at a time**, under `/d/f` and `../d/f`: `OneJobEachExactly` says in
  which runs, `EnqueueDoubles` at which step. **A PUT can be queued for a node without a hash**, which
  the client then reads: `UnhashedExactly`, `UnhashedIsReachable`.
- **A file can be lost at the server and never be sent again**: when a replacement arrives damaged, the
  server removes the old file too, and the mirror keeps the key. `HeldExactly` says when a PUT does
  this, `ArrivesExactly` which files reach the server all the same, with the same content or only by
  name, `SettledIsFixed` that the others never do.
- **A file can be at the server and not be given back**: a PUT of content that is there already without
  an entry writes none (server/session.cpp:301-306). `ServedExactly`, and `ArrivesExactly` over rounds.
- **An exception in a handler ends the whole server**: nothing catches it in the threads that run the
  handlers (server/main.cpp:61-70). `AbortsExactly` and `BodyAbortsExactly` say for which requests and
  bodies: a number that does not parse, a parameter that is missing, a file that cannot be removed, or
  a reply to a client that has gone (server/session.cpp:475-479).
- **An index entry can be left without its file**: a deletion removes the file first and the entry in
  the next statement (server/session.cpp:425-432), and other threads, or an end of the process, come in
  between. `IndexIsTrue` and `IndexIsTrueWhileUp` say that an entry is untrue just there and nowhere
  else, `EndLeaves` what an end of the process leaves, `GetMends` and `DeleteMends` what mends it.
- **One round of scanning and draining is not always enough**: a DELETE of a file the server no longer
  has is an error and leaves the mirror key. `GoneSettles` says exactly when; two rounds always are.
- **Two users can share a file** if a path does not start with a slash: `SeparateExactly` says for which
  paths, `FullPathCollides` is an instance.

## Model

| member | source | states |
|---|---|---|
| `Lockstep.LockStep` | client/client.cpp:82-237 | Lock-step of client and session over byte streams: for every interleaving and every segmentation, in every state of every run of sane calls, whenever the client is between two calls both channels and its residue are empty and the server is parked in its header read; neither end ever leaves the protocol; and the completed exchanges have had exactly the effect of the atomic exchanges of module Rpc, in order. |
| `Lockstep.NothingDropped` | client/client.cpp:21-35 | In every reachable state the buffer a header read is about to clear is empty: the residue of the client before its first and its second header, and what follows a complete request in the server. |
| `Lockstep.StepKeeps` | server/session.cpp:25-111 | Every step of either end keeps the product invariant (what has been sent, what is on its way, what the file of an upload holds so far, what the client has read), and a step that ends a call leaves the world the atomic exchange leaves. |
| `Lockstep.ReplayStep` | client/client.cpp:82-152 | The history of completed exchanges, replayed atomically from the first world, is the present world, before and after every step. |
| `Lockstep.CallEndsAsDriver` | client/client.cpp:154-237 | Per completed exchange: whenever a call ends, whatever it took to read its answer, mirror and files are what the contracts of the driver class say of the bytes the server sent, bodies of GET and SNAPSHOT and the last reply of a PUT included. |
| `Lockstep.StepAsDriver` | client/client.cpp:82-237 | Whenever a header ends the request, what the client of the product does to mirror, files and connection is what those contracts say of the bytes it has read. |
| `Lockstep.IndexStaysClean` | server/session.cpp:343-385 | What lock-step asks of a SNAPSHOT is kept by every run but for its size: from clean indexes on, an idle client can have one carried if and only if it is logged in and the numbers of the header fit into an int. |
| `Lockstep.MirrorCoversIndex` | client/client.cpp:284-346 | From the first completed snapshot on, between any two calls of any run, every path the server has indexed for the user is a key of the mirror. |
| `Lockstep.ServerReadsCall` | server/session.cpp:25-43 | The server has a complete header only when it has all of the request and nothing of another; it is then read as the fields the client joined. |
| `Lockstep.ClientReadsAnswer` | client/client.cpp:255-258 | The client has a complete first header only when the server has answered; what it read beyond it is the start of what follows the header. |
| `Lockstep.SentMoves` | server/session.cpp:481-523 | A chunk written moves from what is still to be written to what is on its way; nothing is lost or repeated. |
| `Lockstep.TakeSome` | server/session.cpp:57-72 | While a body is being received the stored file is the part of what was sent that has been read, and the remaining length is what is on its way and what has still to be sent. |
| `Lockstep.Judge` | server/session.cpp:75-105 | With the whole body there, the server keeps and indexes it or removes file and entry, by the hash, and replies accordingly. |
| `Progress.EveryCallEnds` | client/client.cpp:82-237 | Liveness: every sane call that has begun ends, on every schedule and every segmentation (least fixed point: a step is always possible and every possible step leads to a state from which the same holds, until the client is idle). |
| `Progress.NoDeadlock` | server/session.cpp:164-409 | In every reachable state with a call under way one of the two ends can move. |
| `Progress.StepIsNearer` | server/session.cpp:481-523 | Every step lowers (phase, bytes still to move): both chunk loops terminate on the remaining length. |
| `Progress.PutEndsExactly` | server/session.cpp:57-111 | A PUT of a file the server does not have ends on every schedule if and only if the file is not empty. |
| `Progress.BothRepliesAtOnce` | client/client.cpp:21-35 | The failing schedule of an empty PUT: both replies arrive in one read, the next header read clears the second, and nobody can move any more. |
| `Progress.EmptyPutAnswer` | server/session.cpp:283-332 | The server answers a PUT of no bytes with both of its replies at once and parks. |
| `Calls.CallIsMessage` | client/client.cpp:82-152 | What the client writes for a sane call is one message, and is read back as the fields that were joined. |
| `Calls.HashAtEndExactly` | server/session.cpp:264-283 | For a PUT of a path without ## and CR LF, all else being sane: the header the client writes ends in an exception that leaves the handler if and only if the path ends in #. |
| `Calls.CallTextAsWritten` | client/client.cpp:92-133 | The joined fields are, byte for byte, the header the driver writes. |
| `Calls.LoginTextAsWritten` | client/client.cpp:48-51 | So are those of a LOGIN. |
| `Calls.PlanIsMessage` | server/session.cpp:122-141 | The first reply to a sane call is one message, read back as meant; that of LOGIN, with its empty parameter, as the single field OK. |
| `Calls.ReadingMessage` | server/session.cpp:25-43 | Reading a stream that starts with a message, in any parts: the header is complete exactly when all of the message has been taken, and what is beyond is what followed. |
| `Calls.ServerFollowsPlan` | server/session.cpp:164-409 | On a sane call every handler, error replies and early returns included, leaves the store, the user, the reply bytes and the next operation of the plan, which is built from the atomic exchanges. |
| `Rpc.NoResurrection` | client/client.cpp:195-212 | A GET behind a DELETE of the same path, with no PUT of it between, finds nothing, writes no local file, leaves the store alone and drops the mirror key, whatever the DELETE replied and whatever else was queued. |
| `Rpc.CoversKept` | client/client.cpp:417-430 | The mirror covers the index: a snapshot establishes it from any state, and every other exchange keeps it, error replies included. |
| `Rpc.CoversFromSnapshot` | client/client.cpp:154-237 | So it holds after any sequence of exchanges with a snapshot in it, whatever was the case before. |
| `Rpc.EndToEndPut` | client/client.cpp:260-282 | End to end: whatever the write lengths, exactly the announced number of bytes is sent; the server keeps what arrived if and only if its digest is that of the file; and if every write sends its whole chunk, it keeps exactly the file, indexes it, and the mirror has the key. |
| `Rpc.PutKeepsWhatWasDeclared` | server/session.cpp:283-332 | After a PUT file and entry are there, equal to what arrived and to its hash, if it hashes to what was declared; otherwise neither is left and the mirror is unchanged. |
| `Rpc.HeldKept` | server/session.cpp:211-406 | The mirror promises no file the server does not have, and neither does the index: kept by every exchange in which a PUT arrives as it was declared, error replies included. |
| `Rpc.HeldExactly` | server/session.cpp:309-331 | A PUT keeps that if and only if the server has the content already, or what arrives is what was declared, or its key is not in the mirror; a replacement that arrives damaged does not. |
| `Rpc.ServedExactly` | server/session.cpp:301-306 | After a PUT the server gives the file back if and only if it has just been kept, or was there already with an entry: one that is there without an entry gets none. |
| `Rpc.OtherKeysUntouched` | server/session.cpp:211-406 | An exchange about one path leaves file, entry, mirror node and local file of every other path as they were. |
| `Rpc.NoEntryWithoutPut` | server/db.cpp:21-30 | With no PUT of it, a path that has no index entry gets none, over any sequence of exchanges. |
| `Rpc.PutIndex` | server/db.cpp:21-30 | A PUT adds to the index nothing but an entry for its own path, the declared hash and that of what arrived. |
| `Rpc.EnteredStays` | server/db.cpp:165-183 | No entry is ever the empty string, which reads as no entry. |
| `MultiSession.IndexIsTrue` | server/session.cpp:57-111 | The store invariant, exactly: in every reachable state of any number of sessions, mid-transfer, after a mismatch, a replacement, a dropped connection or an end of the process included, an index entry that no session is receiving a file for is untrue (its file missing or of another hash) if and only if some session has removed its file and not yet the entry, or the process has ended there and the entry was left. |
| `MultiSession.IndexIsTrueWhileUp` | server/session.cpp:425-432 | As long as the process has not ended, an index entry is untrue if and only if some session is between the two statements of the deletion of just that user and path. |
| `MultiSession.EndLeaves` | server/main.cpp:61-70 | What an end of the process leaves: the same store, no session, and as torn entries exactly the untrue ones; every deletion that was half done leaves its entry, if there was one, without a file. |
| `MultiSession.DeletionCanTear` | server/session.cpp:386-406 | That happens: every DELETE of an indexed file passes through a state in which its entry is untrue for all sessions, and an end of the process there leaves it so. |
| `MultiSession.GetMends` | server/session.cpp:211-261 | A GET of a torn entry drops it. |
| `MultiSession.DeleteMends` | server/session.cpp:386-406 | So does a DELETE. |
| `MultiSession.StepKeepsInv` | server/session.cpp:283-332 | A step of any session, or an end of the process, keeps the invariant behind this: what is untrue is half deleted or torn; a file being received exists and has no entry but a torn one, a file being deleted does not exist; no two sessions receive or delete one file. |
| `MultiSession.HandlerGood` | server/session.cpp:164-409 | Every handler, up to its next pause: it changes at most what its user has at its target, nothing when nobody is logged in, and makes no entry untrue but that of a file it has just removed. |
| `MultiSession.UsersAreSeparate` | server/session.cpp:412-432 | Over whole runs: as long as no session logged in as a user acts, files and index of that user stay exactly as they are. |
| `MultiSession.AnonymousChangesNothing` | server/session.cpp:412-422 | Over whole runs: sessions that have not logged in change nothing at all. |
| `MultiSession.LoginNeedsPassword` | server/session.cpp:113-121 | The user of a session changes only by a LOGIN whose password, with the salt after it, has the stored hash; and to the user named in it. |
| `MultiSession.LoginTakesEffect` | server/session.cpp:190-210 | A LOGIN that can be answered makes the session act for the user named if the stored hash is that of the password and the salt, and ends it if not. |
| `MultiSession.FullPathInjective` | server/session.cpp:227 | Directory + user + path determines user and path, for users without a slash and paths that start with one. |
| `MultiSession.SeparateExactly` | server/session.cpp:278 | A path of a user leads to no file of another user if and only if it starts with a slash or has none at all. |
| `MultiSession.FullPathCollides` | server/session.cpp:278 | An instance where it does. |
| `Halves.WholeRequest` | server/session.cpp:425-432 | The two halves of a handler, run one right after the other, are the handler. |
| `Halves.WholeBody` | server/session.cpp:57-111 | So are those of a handler that judges a body. |
| `Exceptions.AbortsExactly` | server/session.cpp:164-409 | An exception leaves the handler of a request if and only if there is no command at all, or a logged-in PUT or DELETE lacks a parameter or a number that parses, or a file that is to be removed cannot be, or the client is found gone before all its replies, none, one or two, are written. |
| `Exceptions.BodyAbortsExactly` | server/session.cpp:57-111 | It leaves the handler of a part of a body if and only if that was the last part, the file closes, and the client is gone, or the body is not what was declared and its file cannot be removed. |
| `Sessions.Session.OnRequestRead` | server/session.cpp:25-43 | The completion of a header read: store, user, replies and next operation are those of the handler function, and exactly one operation is armed, or none if the session ends or an exception leaves the handler, with exactly its stream open. |
| `Sessions.Session.Write` | server/session.cpp:475-479 | A reply goes out, or the write throws because the client has gone. |
| `Sessions.Session.Dispatch` | server/session.cpp:164-189 | The dispatch on the command word, unknown commands and empty parameter lists included, does what the handler function says. |
| `Sessions.Session.TryLogin` | server/session.cpp:190-210 | LOGIN: the user is set only if the stored hash is that of the password followed by the salt; a refusal ends the session. |
| `Sessions.Session.Get` | server/session.cpp:211-261 | GET: not logged in, wrong arguments, no entry, entry without file, file that does not open, or the length and then the file. |
| `Sessions.Session.Put` | server/session.cpp:264-333 | PUT: its guards, the file that is there already, the replacement that deletes first, and the start of the body. |
| `Sessions.Session.Patch` | server/session.cpp:334-342 | PATCH is not answered: from a user who has logged in it is followed by the next header read, from anybody else by the end of the session. |
| `Sessions.Session.SendSnapshot` | server/session.cpp:343-385 | SNAPSHOT: header and payload, the payload rendered in the order the index is walked. |
| `Sessions.Session.Delete` | server/session.cpp:386-406 | DELETE: the file and its entry go, or the reply says why not. |
| `Sessions.Session.ReadAndSaveFile` | server/session.cpp:57-111 | The body: another read armed, or the file closed, hashed, and kept or deleted, and the header read armed. |
| `Sessions.Session.OnBodyRead` | server/session.cpp:64-74 | What is read is appended to the file and the remaining length goes down by as much. |
| `Sessions.Session.SendFileChunked` | server/session.cpp:481-500 | The next chunk is armed, or the header read when nothing is left. |
| `Sessions.Session.OnChunkSent` | server/session.cpp:500-523 | A chunk that has been sent is followed by the rest of the file. |
| `Sessions.Session.OnError` | server/session.cpp:25-43 | An operation that fails arms no other: the session ends. |
| `Sessions.Session.RemoveFile` | server/session.cpp:425-432 | The file goes, and its entry; the entry alone if there was no file; neither if the removal throws. |
| `Sessions.Session.Login` | server/session.cpp:113-121 | True exactly when the stored hash is that of the password followed by the salt, and only then the user is set. |
| `Sessions.SnapshotLines` | server/session.cpp:349-366 | The lines, one per entry of the index, and the length announced for them, which is that of the payload. |
| `Sessions.Payload` | server/session.cpp:367-377 | The lines joined are the payload that was announced. |
| `Answers.LoginAnswers` | server/session.cpp:190-210 | What a LOGIN is answered with, letter by letter: OK and the user set exactly for the right password; otherwise its code, and the session ends. |
| `Answers.GetAnswers` | server/session.cpp:211-262 | Each branch of GET with its reply, what it does to the index, and what comes next. |
| `Answers.PutAnswers` | server/session.cpp:264-333 | Each branch of PUT up to the body, with its reply, file, entry, and what comes next. |
| `Answers.BodyGrows` | server/session.cpp:57-74 | A read within a body goes to the end of the file, and the rest of the length is read next. |
| `Answers.BodyAnswers` | server/session.cpp:76-108 | When all is read: file and entry stay with OK and the hash, or both go with code 7. |
| `Answers.ChunkGoesOut` | server/session.cpp:481-523 | A file goes out in chunks of ten thousand bytes, in order, and then requests are read again. |
| `Answers.DeleteAnswers` | server/session.cpp:386-406 | Entry and file go; the reply says whether there was a file. |
| `Answers.SnapshotAnswers` | server/session.cpp:343-385 | The number of entries, the length of the payload, and the payload. |
| `Answers.PatchAnswers` | server/session.cpp:334-342 | PATCH is answered only when nobody is logged in. |
| `Answers.Dispatched` | server/session.cpp:164-189 | The command words, and the end of the session for any other. |
| `Answers.RequestTexts` | client/client.cpp:92-133 | What the client writes for each request and for LOGIN, letter by letter. |
| `Answers.ReplyEffects` | client/client.cpp:156-211 | What each reply does to the mirror, and which throw. |
| `Answers.ThrowsExactly` | client/client.cpp:156-247 | An exception is thrown over a reply exactly when it lacks a number or has one that cannot be read. |
| `Answers.ErrorEffects` | client/client.cpp:387-441 | The two codes that touch the mirror, and that no other does. |
| `Clients.Client.HandleRequest` | client/client.cpp:82-152 | The driver: every request whose handling returns gives its key to `remove` exactly once, on replies, errors and exceptions alike, save for a PATCH and for a first PUT reply it has no branch for; what was written is the header and, for a PUT told to go on, what the writes make of the local file of the node, the file itself if they are whole; what the reply does to mirror and files, the last reply of a PUT included; and an exception escapes only when the client was not connected, which ends the thread. |
| `Clients.Client.HandleResponse` | client/client.cpp:154-237 | For any segmentation of the reply: the mirror and the local files after it, for each kind of request; nothing changes and the connection is given up when no header comes. |
| `Clients.Client.PutFile` | client/client.cpp:92-117 | The PUT branch, with its two replies: after an OK what the writes make of the local file of the node goes out, the file itself if they are whole, and the mirror is what the first header makes of it that the first read did not take; without one the connection is given up. |
| `Clients.Client.PutBody` | client/client.cpp:98-109 | What goes out is what the writes make of the local file of the node, and the file itself if all of them are whole and the size is its length; and what the last reply does to mirror, pending map and connection. |
| `Clients.Client.GetReply` | client/client.cpp:193-216 | A file is saved and its key inserted with the hash of what was saved; an error drops the key if the code says the file is not there; the reader turns for ever exactly when the stream ends before the announced length. |
| `Clients.Client.SnapshotReply` | client/client.cpp:218-231 | The payload read is what was announced, and merged into the mirror; it throws exactly for a header without its numbers, and can overrun only for a payload of at least a buffer. |
| `Clients.Client.ReadSyncUntilDelimiter` | client/client.cpp:21-35 | For any segmentation the first message of the stream, what was read beyond it staying in the buffer; it throws exactly when the stream ends before. |
| `Clients.Client.ReadAndSaveFile` | client/client.cpp:348-385 | GET round trip: for any segmentation and any residue the file written is exactly the announced number of bytes of the stream, and exactly those are consumed. |
| `Clients.Client.SendFileChunked` | client/client.cpp:260-282 | What goes out is `Transmitted` of the file for the lengths the writes happened to have. |
| `Clients.Client.ReadChunkedSnapshotAndSet` | client/client.cpp:284-346 | For any segmentation, without a read that fills the buffer, the mirror is merged with exactly the announced payload and exactly that is consumed. |
| `Clients.Client.ReadLines` | client/client.cpp:321-341 | Each line of two arguments is inserted, in order, if its path is not there yet. |
| `Clients.Client.HandleErrors` | client/client.cpp:387-441 | Of the error codes, one inserts the key and one removes it. |
| `Clients.Client.Connect` | client/client.cpp:53-69 | A new connection, if there is one, the LOGIN that goes out on it, and what of the answer is consumed; it throws when no answer comes. |
| `Clients.TransmittedLength` | client/client.cpp:260-282 | However short the writes, the announced number of bytes is sent. |
| `Clients.TransmittedWhole` | client/client.cpp:265-280 | If every write sends its whole chunk, what is sent is the file. |
| `Clients.WholeFileSent` | client/client.cpp:265-280 | A PUT whose size is the length of the file sends just the file when every write is whole. |
| `Clients.WholeWritesAre` | client/client.cpp:269-277 | The writes are whole if and only if each sends ten thousand bytes, and the last what is left. |
| `Clients.SentAsIsExactly` | client/client.cpp:265-280 | For the lengths the writes happened to have, every file of that size arrives as it is if and only if every write sent its whole chunk. |
| `Clients.ShortWriteSkips` | client/client.cpp:275-278 | An instance: three bytes in two writes. |
| `Clients.SnapshotSafeExactly` | client/client.cpp:300-314 | Reading a snapshot stays inside its buffer for every segmentation if and only if the payload is shorter than the buffer. |
| `Clients.FillsWhenExact` | client/client.cpp:300-314 | A read of the snapshot reader fills the buffer only when exactly ten thousand bytes are left; all others leave room. |
| `Clients.FindInLonger` | client/client.cpp:25-31 | A delimiter found in what has been read is the first of the stream. |
| `Snapshots.SnapshotRoundTrip` | client/client.cpp:321-341 | A client that knew nothing gets from the rendered index exactly the map of the server, for every path a file node with that path and with the hash of its entry, in whatever order it was walked, if and only if no path has "##" or CR LF in it or ends in #. |
| `Snapshots.SnapshotMerges` | client/client.cpp:337 | With good paths a client that knew something gets the keys of the server added, each a file node with the path and the hash of its entry, and keeps its own nodes. |
| `Snapshots.EntriesOfRender` | server/session.cpp:349-377 | The lines read out of the payload are the entries of the index, each once, in order. |
| `Snapshots.ParsedPathsAreGood` | client/client.cpp:321-341 | Whatever the payload, no path is read out of it that has a delimiter in it or ends in #. |
| `Wire.CodecExact` | server/session.cpp:143-162 | For any two-character delimiter and fields that are not empty: splitting and dropping empties inverts joining if and only if no field contains the delimiter and, where the delimiter can overlap itself, no field but the last ends in half of it. |
| `Wire.ParamsExact` | client/client.cpp:239-253 | The same for the parameters of a header: no "##" in a field, and no field but the last ends in #. |
| `Wire.FrameExact` | client/client.cpp:21-35 | CR LF framing gives back the header if and only if it contains no CR LF; a CR at its end does no harm. |
| `Wire.FindAfter` | shared/const.h:7-8 | A delimiter that follows a text is found just there if and only if the text neither contains it nor ends in half of it. |
| `Wire.SplitIsTidy` | server/session.cpp:143-162 | What a split produces always meets the condition of the codec. |
| `Wire.ExtractParams` | server/session.cpp:143-162 | The loop of either end computes the split without its empty parts. |
| `Protocol.MessageCrosses` | server/session.cpp:143-162 | A message of clean fields, followed by anything, is read back by the other end as just those fields, with just the rest left. |
| `Protocol.JoinHasNoCrLf` | server/session.cpp:122-141 | Joining clean fields makes no CR LF. |
| `Numbers.ParseOfToString` | server/session.cpp:238-240 | Reading back a printed number gives the number when it is in range, and throws when it is not. |
| `Numbers.ParseReads` | server/session.cpp:279-280 | A number is read past white space, with its sign, up to the first character that is no digit, and must be in range. |
| `Numbers.ParseFails` | server/session.cpp:279-280 | Where no digit follows white space and sign, the read throws. |
| `Hashing.ShaToString` | shared/hasher.h:43-51 | The loop prints the digest in hexadecimal, for each octet the digit of its upper half and then that of its lower. |
| `Hashing.GetSha` | shared/hasher.h:53-69 | The loop over chunks of 4096 feeds every byte once and in order: the result is the printed digest of the whole content. |
| `Hashing.HexAt` | shared/hasher.h:43-51 | Octet by octet, the digit of the upper half comes first. |
| `Hashing.ShaAt` | shared/hasher.h:53-69 | The hash of a content is its digest, printed octet by octet. |
| `Hashing.SamePassword` | shared/hasher.h:71-82 | The stored hash is that of password and salt, and two passwords have the same one if and only if the digest cannot tell them, salted, apart. |
| `Hashing.HexInjective` | shared/hasher.h:43-51 | Different digests print differently. |
| `Hashing.PrintedHash` | shared/hasher.h:43-51 | A printed digest is 64 lower-case hexadecimal digits. |
| `Watcher.ScanIsDeclarative` | client/file_watcher.cpp:28-136 | Scan refinement: in whatever order the three passes walk their map or directory, the events are exactly those of the declarative description. |
| `Watcher.EventsByKind` | client/file_watcher.cpp:33-136 | By kind, both ways, as differences of key sets and with the fields of the node each event carries: erased = index without existing; created = files in neither index nor mirror; untracked = indexed files not in the mirror; modified = indexed files whose time is off by more than 20, either way, and whose hash is not the last one of the entry; missing = mirror keys with neither entry nor file. |
| `Watcher.ChangedExactly` | client/file_watcher.cpp:101-117 | Changed means: time off by more than 20, earlier or later, and another hash than the last one. |
| `Watcher.RescannedExactly` | client/file_watcher.cpp:28-121 | The index after a scan, key by key and field by field. |
| `Watcher.FileWatcher.Scan` | client/file_watcher.cpp:28-136 | The three mutating passes leave the index of the declarative description and emit events that are a scan of it. |
| `Watcher.FileWatcher.EraseGone` | client/file_watcher.cpp:33-46 | The first pass. |
| `Watcher.FileWatcher.LookAtFiles` | client/file_watcher.cpp:48-121 | The second pass, over the files that can be opened. |
| `Watcher.FileWatcher.LookAt` | client/file_watcher.cpp:56-119 | What it makes of one file: the events and, field by field, the entry it leaves. |
| `Watcher.FileWatcher.ReportMissing` | client/file_watcher.cpp:124-136 | The third pass. |
| `Watcher.FileWatcher.constructor` | client/file_watcher.cpp:6-17 | The index at the start is what there is in the directory. |
| `Watcher.SecondScan` | client/file_watcher.cpp:60-119 | Edges and levels: a second scan of the same files with the same mirror creates, erases and modifies nothing, even where a time has moved and the content has not, and leaves the index as it is; untracked and missing are emitted again, deleted keys included. |
| `Watcher.IndexSettles` | client/file_watcher.cpp:60-119 | Scanning twice leaves the index of scanning once. |
| `Nodes.KeysCorrespond` | client/node.cpp:84-92 | Prefixing with ".." and erasing two characters are inverse on the two forms of a key. |
| `Nodes.NameIgnoresDots` | client/node.cpp:31-36 | The file name is the same in both forms. |
| `Nodes.NameIsLast` | client/node.cpp:31-36 | The name is what follows the last slash. |
| `Nodes.KeyForms` | client/node.cpp:84-92 | What becomes of each form of a key, letter by letter. |
| `Throttle.ThrottleIsSafe` | client/main.cpp:122-205 | Over all interleavings of the three threads: a file key has at most one job queued or unfinished, and is pending if and only if it has one or the watcher is between marking it and enqueueing it. |
| `Throttle.TakenInOrder` | client/main.cpp:78-223 | Over all interleavings the jobs put are the jobs taken and then those still queued, in that order: none is taken twice, passed over or out of turn. |
| `Throttle.OneJobEachExactly` | client/main.cpp:122-205 | A run has at most one job for every file all the time if and only if no job is ever enqueued while the other form of its key is pending. |
| `Throttle.EnqueueDoubles` | client/main.cpp:137-147 | Enqueueing a job leaves its file with two if and only if the other form of its key is pending at that moment. |
| `Throttle.TwoJobsExactly` | client/node.cpp:84-92 | In every reachable state a file has two jobs if and only if both forms of its key have one. |
| `Throttle.TwoJobsForOneFile` | client/main.cpp:137-147 | A run in which a file has two jobs. |
| `Throttle.AtMostTwoJobsPerFile` | client/node.cpp:84-92 | A file never has three jobs. |
| `Throttle.UnhashedExactly` | client/file_watcher.cpp:82-92 | In every run, a PUT without a hash passes the callback if and only if the key was pending when the scan looked at the file and a job with that key has been finished since. |
| `Throttle.UnhashedIsReachable` | client/file_watcher.cpp:82-92 | That can happen: a run that queues one. |
| `Throttle.CanAskExactly` | client/main.cpp:213-222 | In every reachable state, some continuation still asks for a snapshot if and only if the snapshot key is not left pending without a job, and the job of the producer has not been finished between its enqueueing and its marking. |
| `Throttle.StuckExactly` | client/main.cpp:219-220 | After the producer has marked its key, snapshots go on in some continuation if and only if its job was still queued or unfinished as it did. |
| `Throttle.StuckIsReachable` | client/main.cpp:219-220 | A run in which it does. |
| `Throttle.NoSnapshotOnceStuck` | client/main.cpp:213-222 | And then, in every continuation, no snapshot is ever enqueued again. |
| `SharedMaps.SharedMap.Set` | shared/shared_map.h:32-46 | Insert-only: a key that is there keeps its value. |
| `JobQueue.QueueConservation` | shared/job.h:34-74 | Under any interleaving of producers and consumers: the jobs put are the jobs delivered followed by the queue, and `get` answers none only after `complete`, with everything delivered. |
| `JobQueue.DeliveredInOrder` | shared/job.h:44-56 | The k-th delivery is the k-th put. |
| `JobQueue.HandedOutInOrder` | shared/job.h:44-56 | In every run a `get` on a queue that is not empty hands out the first job put that has not been handed out, and the deliveries are just what was handed out. |
| `JobQueue.Jobs.Get` | shared/job.h:44-56 | The first job leaves the queue and is the answer; there is none only when the queue is empty and complete. |
| `Callbacks.OnEvent` | client/main.cpp:122-205 | The callback: ignored files and pending keys leave nothing; otherwise the key is marked and one request enqueued. |
| `Callbacks.OnEvents` | client/main.cpp:122-205 | The events of a scan leave exactly the requests of `Enqueued`. |
| `Callbacks.EventsLeaveRequests` | client/main.cpp:128-205 | Every event that is not ignored leaves a request for its path, its own or an earlier one. |
| `Callbacks.RequestsComeFromEvents` | client/main.cpp:128-205 | Every request is that of an event that is not ignored. |
| `Callbacks.RequestsHaveDistinctKeys` | client/main.cpp:135-147 | No two requests of a scan have the same key. |
| `Convergence.Convergence` | client/file_watcher.cpp:24-141 | Convergence: from any sound state, after two rounds of scanning and draining, snapshots coming in anywhere, the mirror has exactly the keys of the local files, `docker-compose.yml` apart, and no later scan enqueues anything. |
| `Convergence.FreshIsSound` | client/file_watcher.cpp:6-17 | A client that has just indexed its directory and has its first snapshot is in a sound state, whatever the directory and the index hold, as long as their paths are of the two forms and no directory stands where a file goes. |
| `Arrival.ArrivesExactly` | client/file_watcher.cpp:28-136 | From any sound state, after one round and in all later ones, the server has a file for every local one, `docker-compose.yml` apart; or one with the same hash; or one that it gives back: each if and only if at the start, for each local file, that is so already or the file is to be sent (the mirror lacks it, or the watcher has a change of it to report) and, for giving it back, is not there already with that content. |
| `Arrival.DrainFact` | client/client.cpp:154-237 | What draining does for a local file: each of the three holds afterwards if and only if it did before, or the file was sent and, for giving it back, was not there already. |
| `Arrival.FetchedFact` | client/client.cpp:193-216 | For a file that draining has fetched all three hold. |
| `Arrival.FilesReachServer` | client/client.cpp:154-237 | In particular the server has a file for every local one where the mirror promises nothing the server does not have. |
| `Convergence.SettledIsFixed` | client/file_watcher.cpp:60-136 | Once keys agree and the index has caught up, no round changes the store or the local files; what the server has lost stays lost. |
| `Convergence.SentExactly` | client/file_watcher.cpp:96-118 | A local file that the mirror has is sent in a round if and only if there is a change of it to report. |
| `Convergence.LiveScanIsScan` | client/file_watcher.cpp:56-92 | Scanning while the callback marks keys emits what scanning with nothing pending emits. |
| `Convergence.LiveVisitsOfPass` | client/file_watcher.cpp:46-119 | With the same keys pending all along, the pass that marks keys is that of the watcher. |
| `Convergence.RequestIsSane` | client/main.cpp:128-205 | Every request the watcher has enqueued meets what lock-step asks of a call, size and hash of a PUT included, if its path is fit for the wire and its file neither empty nor too big. |
| `Convergence.RoundExists` | client/main.cpp:71-111 | A round is possible from every sound state. |
| `Convergence.RoundKeepsSound` | client/client.cpp:82-237 | A round leaves a sound state, in which no index entry is stale and no change is left to report. |
| `Convergence.RoundSettles` | client/file_watcher.cpp:28-136 | One round settles every key but those whose file has gone since the scan before. |
| `Convergence.GoneSettles` | server/session.cpp:386-406 | And those it settles if and only if the server still has the file and the index had it as a file: otherwise DELETE is answered with an error and the key stays for one more round. |
| `Convergence.SettledIsQuiet` | client/main.cpp:122-205 | When keys agree and the index has caught up, a scan enqueues nothing. |
| `Convergence.DrainKey` | client/client.cpp:82-237 | What draining the queue does to any one key, from the requests for it alone. |
| `Convergence.DrainGone` | client/client.cpp:186-193 | What it does to a mirror key whose local file has gone. |
| `Convergence.DrainKeepsFiles` | client/client.cpp:348-385 | Draining adds local files and changes none. |
| `Stores.Db.GetUserSnapshot` | server/db.cpp:84-118 | The loop over the cells of the reply, two at a time, gives back the index. |

## Left out

- Sockets, DNS, Boost.Asio: a connection is the bytes it still delivers, read in any non-empty parts; a failure is a stream that ends early. A reconnect is a new connection.
- Redis: the index is a map per user; how keys are built there, and failures of the store, are not modelled.
- SHA-256 itself is a parameter, a function from contents to 32 octets; collision freedom is assumed nowhere, results speak of equal digests.
- Logging, console output, argument parsing, Docker and CMake files, `shared_box`, `DurationLogger`.
- Creation of directories, symbolic links, `..` inside paths, a file where a directory is expected: the data directory is a flat map from path to bytes.
- Error codes that have no effect on either end beyond their number.
- Bytes are characters; there is no encoding. Time stamps are integers.
- The size and time of a node that comes from a snapshot are unset in the program; here the size is `None` and the time arbitrary. `LastHash` requires a hash, where the program reads the last element of an empty vector.
- An output stream of the server stays tied to the file it opened even if another session removes that file; here a write goes to whatever is under the path.
- MultiSession.IndexIsTrue: assumes that no session is given a PUT or a DELETE of a path another session is receiving or deleting, that targets start with `/`, and that nothing else edits the data directory; with two sessions changing one path the program does not keep the invariant. A handler is one step but for its deletions, which are two; of the other pairs of statements in it none leaves an entry untrue in between.
- Exceptions.AbortsExactly: exceptions out of Redis or for want of memory are not modelled; of a reply that fails, what part of it went out is not either.
- Lockstep.LockStep: requests are written whole (the program does not look at the count of that one write, client/client.cpp:37-45), the client stays for the replies, disk operations succeed at the server and at the client (a GET whose local file does not open leaves its body in the socket, client/client.cpp:352-356), a PUT is of at least one byte, sizes fit in an `int`, credentials are right, paths are without delimiters, NUL or a final `#`, and no read fills the whole buffer of the snapshot reader (see `SnapshotSafeExactly`); PATCH, which the client never sends, is excluded. The session and client classes are modelled with all of these.
- Clients.Client.ReadAndSaveFile: the local path is `..` followed by the remote path, for either form of the key; the program leaves this as a TODO (client/client.cpp:350-352). The same holds of the file a PUT reads (client/client.cpp:265). Where the working directory is directly below the root, as in client.Dockerfile:4, the forms are one file. When the stream ends early the file partly written is not modelled, only that the reader does not return.
- Clients.Client.Connect: the answer to LOGIN is read and, as in the program, not looked at.
- Convergence.Convergence: files do not change during the rounds, all are readable and none is empty, a PUT sends its file whole, and the client is the only one of its user; the state at the start has had its first snapshot (`CoversFromSnapshot`). Scanning and draining alternate, so no job is finished while its scan goes on; their interleaving is what module Throttle is about. The same holds of the other results of that module.
- Calls.HashAtEndExactly: a file in the way of the PUT can be removed and the client is there for the replies; where not, `AbortsExactly` says what throws.
- Throttle.ThrottleIsSafe: a job is finished by one removal of its key, which is what `Clients.Client.HandleRequest` proves save for its two exceptions; an exception that leaves the handler while it is not connected ends the thread and is not a step here.
- Hash-level agreement of mirror and server: insertion never overwrites, so a mirror node keeps its old hash after a modification; all results on the mirror are about keys.
- Edits whose time moves by at most 20, and edits made while the client is off: the program does not look for them.

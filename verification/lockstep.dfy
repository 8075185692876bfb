/** The client (client/client.cpp) and its session (server/session.cpp) over two byte streams.

    Every read takes an arbitrary non-empty part of what is in its stream, every chunk a client sends
    is an arbitrary part of its buffer, and the two ends interleave in any order. The theorems: the
    two never fall out of step and never wait for each other, nothing is ever dropped by clearing a
    buffer, and what a run does, exchange by exchange, is what module Rpc says.

    Requests are written whole, the disk does not fail, and calls are sane (module Calls). A read that
    fills the whole buffer of the snapshot reader is excluded; see Clients.SnapshotSafeExactly. */
module Lockstep {
  import opened Wire
  import opened Numbers
  import opened Option
  import opened Hashing
  import opened Nodes
  import opened Stores
  import opened Protocol
  import opened SharedMaps
  import opened Sessions
  import opened Clients
  import opened Snapshots
  import opened Rpc
  import opened Calls

  datatype ClientPc =
    | Idle
    | First(call: Call, buf: Bytes)
    | Sending(call: Call, left: int)
    | Last(call: Call, buf: Bytes)
    | Saving(call: Call, left: int, got: Bytes)
    | Reading(call: Call, left: int, got: Bytes)
    | Broken

  datatype ServerPc = Parked(buf: Bytes) | Busy(next: Next) | Gone

  /** `residue` is what the client has read beyond a header and not used. The last four fields are
      history: the world when the call began, the body sent so far, the order in which the server
      walked its snapshot, and the exchanges completed. */
  datatype State = State(client: ClientPc, residue: Bytes, server: ServerPc, c2s: Bytes, s2c: Bytes, world: World,
                         base: World, sent: Bytes, listing: seq<string>, log: Log)

  datatype Move =
    | Begin(call: Call)
    | ClientRead(n: nat)
    | ClientHandle
    | ClientSend(data: Bytes)
    | ClientTake(n: nat)
    | ServerRead(n: nat)
    | ServerHandle(listing: seq<string>)
    | ServerTake(n: nat, listing: seq<string>)
    | ServerSent

  predicate Complete(buf: Bytes) { Find(buf, REQUEST_DELIMITER) < |buf| }

  function HeaderOf(buf: Bytes): seq<Bytes>
    requires Complete(buf)
  {
    Wire.Params(buf[..Find(buf, REQUEST_DELIMITER)])
  }

  function BeyondHeader(buf: Bytes): Bytes
    requires Complete(buf)
  {
    buf[Find(buf, REQUEST_DELIMITER) + 2..]
  }

  ghost predicate Enabled(setup: Setup, s: State, a: Move) {
    match a
    case Begin(call) => s.client.Idle? && Sane(setup, s.world, call)
    case ClientRead(n) => (s.client.First? || s.client.Last?) && !Complete(s.client.buf) && 1 <= n <= |s.s2c|
    case ClientHandle => (s.client.First? || s.client.Last?) && Complete(s.client.buf)
    case ClientSend(data) => s.client.Sending? && s.client.left > 0 && 1 <= |data| <= Portion(s.client.left)
    case ClientTake(n) =>
      && (s.client.Saving? || s.client.Reading?) && s.client.left > 0 && 1 <= n <= |s.s2c|
      && (s.client.Saving? ==> n <= Portion(s.client.left))
      && (s.client.Reading? ==> n <= SnapshotPortion(s.client.left) && n < LEN_BUFF)
    case ServerRead(n) => s.server.Parked? && !Complete(s.server.buf) && 1 <= n <= |s.c2s|
    case ServerHandle(listing) =>
      s.server.Parked? && Complete(s.server.buf) && Enumerates(listing, UserIndex(s.world.store, s.world.user))
    case ServerTake(n, listing) =>
      s.server.Busy? && s.server.next.ReadBody? && s.server.next.remaining > 0
      && 1 <= n <= |s.c2s| && n <= Chunk(s.server.next.remaining)
    case ServerSent =>
      s.server.Busy? && s.server.next.SendBody? && 0 < s.server.next.remaining <= |s.server.next.rest|
  }

  /** The client is done with its call; what it read and did not use stays behind. */
  function Finish(s: State, call: Call, w: World, residue: Bytes): State {
    s.(client := Idle, residue := residue, world := w, log := s.log + [(call, s.sent)])
  }

  function FinishOr(s: State, call: Call, m: Option<Mirror>, residue: Bytes): State {
    if m.None? then s.(client := Broken)
    else Finish(s, call, s.world.(mirror := m.value), residue)
  }

  function FinishSaving(digest: Sha256, s: State, call: Call, got: Bytes): State
    requires call.Do?
  {
    var node := call.req.node;
    var key := node.AbsolutePath();
    Finish(s, call, s.world.(local := s.world.local[LocalKey(key) := got],
                             mirror := InsertNew(s.world.mirror, key, node.SetLastHash(Sha(digest, got)))), "")
  }

  function Save(digest: Sha256, s: State, call: Call, left: int, got: Bytes): State
    requires call.Do?
  {
    if left > 0 then s.(client := Saving(call, left, got), residue := "")
    else FinishSaving(digest, s, call, got)
  }

  function ReadOn(s: State, call: Call, left: int, got: Bytes): State {
    if left > 0 then s.(client := Reading(call, left, got), residue := "")
    else Finish(s, call, s.world.(mirror := OnSnapshotBody(s.world.mirror, got)), "")
  }

  /** The next read of a header clears the buffer, whatever is in it. */
  function AwaitLast(s: State, call: Call): State {
    s.(client := Last(call, ""), residue := "")
  }

  function OnPutHeader(s: State, call: Call, node: Node, params: seq<Bytes>, residue: Bytes): State {
    if params == ["OK"] && node.size.Some? then
      if ToInt32(node.size.value) > 0 then s.(client := Sending(call, ToInt32(node.size.value)), residue := residue)
      else AwaitLast(s, call)
    else if IsError(params) then FinishOr(s, call, OnError(s.world.mirror, node, params), residue)
    else Finish(s, call, s.world, residue)
  }

  function OnGetHeader(digest: Sha256, s: State, call: Call, node: Node, params: seq<Bytes>, residue: Bytes): State
    requires call.Do?
  {
    if IsOkay(params) then
      if Stol(params[1]).None? then s.(client := Broken)
      else Save(digest, s, call, ToInt32(Stol(params[1]).value) - |residue|, residue)
    else FinishOr(s, call, OnGetRefused(s.world.mirror, node, params), residue)
  }

  function OnSnapshotHeader(s: State, call: Call, params: seq<Bytes>, residue: Bytes): State {
    if |params| < 1 || (params[0] == "OK" && |params| < 3) then s.(client := Broken)
    else if params[0] != "OK" then Finish(s, call, s.world, residue)
    else
      var entries, length := Stoi(params[1]), Stoi(params[2]);
      if entries.None? || length.None? then s.(client := Broken)
      else ReadOn(s, call, length.value - |residue|, CString(residue))
  }

  /** `handle_request` and `handle_response` once the first header is read. */
  function OnFirst(digest: Sha256, s: State, call: Call, params: seq<Bytes>, residue: Bytes): State {
    match call
    case Login(name, pwd) => Finish(s, call, s.world, residue)
    case Do(Request(PUT, node)) => OnPutHeader(s, call, node, params, residue)
    case Do(Request(DELETE, node)) =>
      Finish(s, call, s.world.(mirror := OnDeleteReply(s.world.mirror, node, params)), residue)
    case Do(Request(GET, node)) => OnGetHeader(digest, s, call, node, params, residue)
    case Do(Request(SNAPSHOT, node)) => OnSnapshotHeader(s, call, params, residue)
    case Do(Request(PATCH, node)) => Finish(s, call, s.world, residue)
  }

  function OnLast(s: State, call: Call, params: seq<Bytes>, residue: Bytes): State
    requires call.Do?
  {
    FinishOr(s, call, OnPutReply(s.world.mirror, call.req.node, params), residue)
  }

  function PcOf(next: Next): ServerPc {
    match next
    case ReadRequest => Parked("")
    case Ended => Gone
    case Aborted => Gone
    case _ => Busy(next)
  }

  /** The server after a handler; parking clears its buffer. */
  function ServerAfter(s: State, o: Outcome): State {
    s.(server := PcOf(o.next), s2c := s.s2c + EncodeAll(o.out), world := s.world.(store := o.store, user := o.user))
  }

  /** The request is written and the first header awaited, in a cleared buffer. */
  function Begun(s: State, call: Call): State
    requires call.Do? && call.req.verb.PUT? ==> call.req.node.size.Some? && |call.req.node.hashes| > 0
  {
    s.(client := First(call, ""), residue := "", c2s := s.c2s
      + CallText(call), base := s.world, sent := "", listing := [])
  }

  ghost function Step(setup: Setup, s: State, a: Move): State
    requires Enabled(setup, s, a)
  {
    match a
    case Begin(call) => Begun(s, call)
    case ClientRead(n) =>
      var buf := s.client.buf + s.s2c[..n];
      s.(client := if s.client.First? then First(s.client.call, buf) else Last(s.client.call, buf), s2c := s.s2c[n..])
    case ClientHandle =>
      var params, residue := HeaderOf(s.client.buf), BeyondHeader(s.client.buf);
      if s.client.First? then OnFirst(setup.digest, s, s.client.call, params, residue)
      else if s.client.call.Do? then OnLast(s, s.client.call, params, residue)
      else s
    case ClientSend(data) =>
      var t := s.(c2s := s.c2s + data, sent := s.sent + data);
      if s.client.left - |data| > 0 then t.(client := Sending(s.client.call, s.client.left - |data|))
      else AwaitLast(t, s.client.call)
    case ClientTake(n) =>
      var t := s.(s2c := s.s2c[n..]);
      var data := s.s2c[..n];
      if s.client.Reading? then ReadOn(t, s.client.call, s.client.left - n, s.client.got + CString(data))
      else if s.client.call.Do? then Save(setup.digest, t, s.client.call, s.client.left - n, s.client.got + data)
      else s
    case ServerRead(n) => s.(server := Parked(s.server.buf + s.c2s[..n]), c2s := s.c2s[n..])
    case ServerHandle(listing) =>
      ServerAfter(s.(listing := listing),
                  HandleRequest(setup.digest, setup.accounts, s.world.store, s.world.user,
                                s.server.buf[..Find(s.server.buf, REQUEST_DELIMITER)], GoodEnv(listing)))
    case ServerTake(n, listing) =>
      ServerAfter(s.(c2s := s.c2s[n..]),
                  OnBody(setup.digest, s.world.store, s.world.user, s.server.next, s.c2s[..n], GoodEnv(listing)))
    case ServerSent => ServerAfter(s, OnSent(s.world.store, s.world.user, s.server.next))
  }

  /** What the server has still to write of the answer it is giving. */
  function Future(server: ServerPc): Bytes {
    if server.Busy? && server.next.SendBody? then server.next.rest else ""
  }

  ghost predicate WellSent(server: ServerPc) {
    server.Busy? && server.next.SendBody? ==> 0 < server.next.remaining == |server.next.rest|
  }

  /** The call has been begun in a sane way and the server has walked its snapshot. */
  ghost predicate Planned(setup: Setup, s: State, call: Call) {
    Sane(setup, s.base, call) && Enumerates(s.listing, UserIndex(s.base.store, s.base.user))
  }

  ghost predicate Waiting(setup: Setup, s: State, call: Call, buf: Bytes) {
    && Sane(setup, s.base, call) && s.world == s.base && s.sent == ""
    && buf == "" && s.s2c == "" && s.server.Parked? && s.server.buf + s.c2s == CallText(call)
  }

  /** The server has read the request, and is done with it or sending what follows the header. */
  ghost predicate ServerAt(pl: Plan, server: ServerPc) {
    if pl.next.ReadBody? then server == Busy(pl.next)
    else if pl.next.SendBody? then server == Parked("") || (server.Busy? && server.next.SendBody? && WellSent(server))
    else server == Parked("")
  }

  ghost predicate Answered(setup: Setup, s: State, call: Call, buf: Bytes) {
    && Planned(setup, s, call)
    && var pl := PlanOf(setup, s.base, call, s.listing);
       && s.world == s.base.(store := pl.store, user := pl.user) && s.sent == ""
       && s.c2s == "" && buf + s.s2c + Future(s.server) == pl.text + pl.rest && ServerAt(pl, s.server)
  }

  /** The store in the middle of an upload. */
  function Uploaded(w: World, key: string, received: Bytes): Store {
    var st := Opened(w.store, w.user, key);
    st.(files := st.files[FullPath(w.user, key) := received])
  }

  ghost predicate IsUpload(setup: Setup, s: State, call: Call) {
    && Planned(setup, s, call) && call.Do? && call.req.verb.PUT?
    && !AlreadyThere(setup.digest, s.base.store, s.base.user, KeyOf(call), call.req.node.LastHash())
  }

  /** The server is taking the body: what it has and what is on its way are what was sent. */
  ghost predicate Taking(setup: Setup, s: State, call: Call, left: int) {
    && IsUpload(setup, s, call)
    && var node, key := call.req.node, KeyOf(call);
       && s.s2c == "" && |s.sent| + left == node.size.value && |s.c2s| + left > 0 && |s.c2s| <= |s.sent|
       && s.world == s.base.(store := Uploaded(s.base, key, s.sent[..|s.sent| - |s.c2s|]))
       && s.c2s == s.sent[|s.sent| - |s.c2s|..]
       && s.server == Busy(ReadBody(FullPath(s.base.user, key), key, |s.c2s| + left, node.LastHash()))
  }

  /** The last reply to a PUT. */
  function Verdict(digest: Sha256, node: Node, body: Bytes): Plan
    requires |node.hashes| > 0
  {
    if node.LastHash() == Sha(digest, body) then
      Plan(Encode(OkayWith(node.LastHash())), ["OK", node.LastHash()], "", Store(map[], map[]), "", ReadRequest)
    else Plan(Encode(Failed(FILE_HASH_MISMATCH)), ["ERROR", ToString(FILE_HASH_MISMATCH)], "", Store(map[], map[]), "",
              ReadRequest)
  }

  ghost predicate Judged(setup: Setup, s: State, call: Call, buf: Bytes) {
    && IsUpload(setup, s, call)
    && var node, key := call.req.node, KeyOf(call);
       && s.server == Parked("") && s.c2s == "" && |s.sent| == node.size.value
       && s.world
            == s.base.(store := Closed(setup.digest, Opened(s.base.store, s.base.user, key), s.base.user, key,
                                       node.LastHash(), s.sent))
       && buf + s.s2c == Verdict(setup.digest, node, s.sent).text
  }

  ghost predicate Inv(setup: Setup, s: State) {
    match s.client
    case Idle => s.server == Parked("") && s.c2s == "" && s.s2c == "" && s.residue == ""
    case First(call, buf) => Waiting(setup, s, call, buf) || Answered(setup, s, call, buf)
    case Sending(call, left) => left > 0 && s.residue == "" && Taking(setup, s, call, left)
    case Last(call, buf) => (buf == "" && Taking(setup, s, call, 0)) || Judged(setup, s, call, buf)
    case Saving(call, left, got) =>
      && Planned(setup, s, call) && call.Do? && call.req.verb.GET? && Served(s.base, KeyOf(call))
      && var content := s.base.store.files[FullPath(s.base.user, KeyOf(call))];
         && s.world == s.base && s.sent == "" && s.c2s == "" && left > 0 && |got| + left == |content|
         && got + s.s2c + Future(s.server) == content
         && (s.server == Parked("") || (s.server.Busy? && s.server.next.SendBody? && WellSent(s.server)))
    case Reading(call, left, got) =>
      && Planned(setup, s, call) && call.Do? && call.req.verb.SNAPSHOT?
      && var payload := Render(s.listing, UserIndex(s.base.store, s.base.user));
         && s.world == s.base && s.sent == "" && s.c2s == "" && left > 0 && |got| + left == |payload|
         && got + s.s2c == payload && s.server == Parked("")
    case Broken => false
  }

  /** The world of an idle client, and the world a busy one began in, are what the completed
      exchanges made of the world at the start. */
  ghost predicate Replayed(setup: Setup, w0: World, s: State) {
    && Callable(s.log)
    && Replay(setup.digest, w0, s.log) == if s.client.Idle? then s.world else s.base
  }

  /** A step other than the beginning of a call keeps the invariant and the history, and if it ends the
      call, the world is what module Rpc says the exchange makes of it. */
  ghost predicate Kept(setup: Setup, s: State, t: State) {
    && Inv(setup, t) && !s.client.Idle? && !s.client.Broken?
    && (s.client.call.Do? && s.client.call.req.verb.PUT? ==> |s.client.call.req.node.hashes| > 0)
    && if t.client.Idle? then
         t.log == s.log + [(s.client.call, s.sent)] && t.world == Exchange(setup.digest, s.base, s.client.call, s.sent)
       else t.log == s.log && t.base == s.base && !t.client.Broken? && t.client.call == s.client.call
  }

  lemma ClientReadKeeps(setup: Setup, s: State, n: nat)
    requires Inv(setup, s) && Enabled(setup, s, ClientRead(n))
    ensures Kept(setup, s, Step(setup, s, ClientRead(n)))
  {
    var buf := s.client.buf;
    assert buf + s.s2c[..n] + s.s2c[n..] == buf + s.s2c by {
      assert s.s2c[..n] + s.s2c[n..] == s.s2c;
    }
    if s.client.First? {
      assert Answered(setup, s, s.client.call, buf);
      assert buf + s.s2c[..n] + s.s2c[n..] + Future(s.server) == buf + s.s2c + Future(s.server);
    }
  }

  lemma ServerReadKeeps(setup: Setup, s: State, n: nat)
    requires Inv(setup, s) && Enabled(setup, s, ServerRead(n))
    ensures Kept(setup, s, Step(setup, s, ServerRead(n)))
  {
    assert s.client.First? && Waiting(setup, s, s.client.call, s.client.buf);
    assert s.server.buf + s.c2s[..n] + s.c2s[n..] == s.server.buf + s.c2s;
  }

  /** The server has a complete request only when it has all of it, and nothing more: what parking
      clears is empty. */
  lemma ServerReadsCall(setup: Setup, s: State)
    requires Inv(setup, s) && s.server.Parked? && Complete(s.server.buf)
    ensures s.client.First? && Waiting(setup, s, s.client.call, s.client.buf) && s.c2s == ""
    ensures BeyondHeader(s.server.buf) == "" && HeaderOf(s.server.buf) == CallFields(s.client.call)
  {
    CompleteIsWaiting(setup, s);
    var call := s.client.call;
    CallIsMessage(setup, s.base, call);
    ReadsHeader(CallText(call), CallFields(call), "", s.server.buf, s.c2s, "");
  }

  lemma CompleteIsWaiting(setup: Setup, s: State)
    requires Inv(setup, s) && s.server.Parked? && Complete(s.server.buf)
    ensures s.client.First? && Waiting(setup, s, s.client.call, s.client.buf)
  {
    assert !Complete("");
    match s.client {
      case First(call, buf) => assert Answered(setup, s, call, buf) ==> s.server == Parked("");
      case _ =>
    }
  }

  lemma {:induction false} AnsweredAfter(setup: Setup, s: State, call: Call, listing: seq<string>, o: Outcome)
    requires Waiting(setup, s, call, "") && s.c2s == "" && Enumerates(listing, UserIndex(s.base.store, s.base.user))
    requires AsPlanned(o, PlanOf(setup, s.base, call, listing))
    ensures Answered(setup, ServerAfter(s.(listing := listing), o), call, "")
  {
    PlanNext(setup, s.base, call, listing);
    var t := ServerAfter(s.(listing := listing), o);
    var pl := PlanOf(setup, s.base, call, listing);
    assert "" + t.s2c + Future(t.server) == OutcomeBytes(o);
    assert t.world == s.base.(store := pl.store, user := pl.user);
  }

  lemma ServerHandleKeeps(setup: Setup, s: State, listing: seq<string>)
    requires Inv(setup, s) && Enabled(setup, s, ServerHandle(listing))
    ensures Kept(setup, s, Step(setup, s, ServerHandle(listing)))
  {
    ServerReadsCall(setup, s);
    var call := s.client.call;
    ServerFollowsPlan(setup, s.base, call, listing);
    AnsweredAfter(setup, s, call, listing,
                  HandleParams(setup.digest, setup.accounts, s.base.store, s.base.user, CallFields(call),
                               GoodEnv(listing)));
  }

  lemma PlanNext(setup: Setup, w: World, call: Call, listing: seq<string>)
    requires Sane(setup, w, call) && Enumerates(listing, UserIndex(w.store, w.user))
    ensures var pl := PlanOf(setup, w, call, listing);
            && (pl.next.ReadRequest? || pl.next.ReadBody?
                || (pl.next.SendBody? && pl.next.rest == pl.rest && 0 < pl.next.remaining == |pl.rest|))
  {
  }

  /** `ReadingMessage` for a buffer, what is on its way, and what has still to be written. */
  lemma ReadsHeader(text: Bytes, params: seq<Bytes>, rest: Bytes, buf: Bytes, way: Bytes, future: Bytes)
    requires IsMessage(text, params) && buf + way + future == text + rest && Complete(buf)
    ensures HeaderOf(buf) == params && BeyondHeader(buf) + way + future == rest
  {
    assert buf + (way + future) == buf + way + future;
    ReadingMessage(text, params, rest, buf, way + future);
    assert BeyondHeader(buf) + way + future == BeyondHeader(buf) + (way + future);
  }

  /** The client has a complete first header only when the server has answered, and then reads the
      header of the plan; what it read beyond belongs to what follows the header. */
  lemma ClientReadsAnswer(setup: Setup, s: State)
    requires Inv(setup, s) && s.client.First? && Complete(s.client.buf)
    ensures Answered(setup, s, s.client.call, s.client.buf)
    ensures var pl := PlanOf(setup, s.base, s.client.call, s.listing);
            HeaderOf(s.client.buf) == pl.params && BeyondHeader(s.client.buf) + s.s2c + Future(s.server) == pl.rest
  {
    var call, buf := s.client.call, s.client.buf;
    assert Answered(setup, s, call, buf) by {
      assert !Complete("");
    }
    var pl := PlanOf(setup, s.base, call, s.listing);
    PlanIsMessage(setup, s.base, call, s.listing);
    ReadsHeader(pl.text, pl.params, pl.rest, buf, s.s2c, Future(s.server));
  }

  /** The common situation of the lemmas about the first header. */
  ghost predicate AtHeader(setup: Setup, s: State, call: Call, residue: Bytes) {
    && Planned(setup, s, call) && !s.client.Idle? && !s.client.Broken? && s.client.call == call
    && var pl := PlanOf(setup, s.base, call, s.listing);
       && s.world == s.base.(store := pl.store, user := pl.user) && s.sent == ""
       && s.c2s == "" && residue + s.s2c + Future(s.server) == pl.rest && ServerAt(pl, s.server)
  }

  lemma FirstOfPut(setup: Setup, s: State, node: Node, residue: Bytes)
    requires AtHeader(setup, s, Do(Request(PUT, node)), residue)
    ensures Kept(setup, s,
                 OnFirst(setup.digest, s, Do(Request(PUT, node)), PlanPut(setup.digest, s.base, node).params, residue))
  {
    if AlreadyThere(setup.digest, s.base.store, s.base.user, node.AbsolutePath(), node.LastHash()) {
      PutRefused(setup, s, node, residue);
    } else {
      PutAccepted(setup, s, node, residue);
    }
  }

  lemma PutRefused(setup: Setup, s: State, node: Node, residue: Bytes)
    requires AtHeader(setup, s, Do(Request(PUT, node)), residue)
    requires AlreadyThere(setup.digest, s.base.store, s.base.user, node.AbsolutePath(), node.LastHash())
    ensures Kept(setup, s,
                 OnFirst(setup.digest, s, Do(Request(PUT, node)), PlanPut(setup.digest, s.base, node).params, residue))
  {
    ParseOfToString(FILE_ALREADY_EXISTS, INT_MIN, INT_MAX);
    var params := PlanPut(setup.digest, s.base, node).params;
    assert OnError(s.world.mirror, node, params) == Some(InsertNew(s.world.mirror, node.AbsolutePath(), node));
  }

  lemma PutAccepted(setup: Setup, s: State, node: Node, residue: Bytes)
    requires AtHeader(setup, s, Do(Request(PUT, node)), residue)
    requires !AlreadyThere(setup.digest, s.base.store, s.base.user, node.AbsolutePath(), node.LastHash())
    ensures Kept(setup, s,
                 OnFirst(setup.digest, s, Do(Request(PUT, node)), PlanPut(setup.digest, s.base, node).params, residue))
  {
    var call := Do(Request(PUT, node));
    assert PlanPut(setup.digest, s.base, node).params == ["OK"];
    var t := OnFirst(setup.digest, s, call, ["OK"], residue);
    assert Uploaded(s.base, node.AbsolutePath(), "") == Opened(s.base.store, s.base.user, node.AbsolutePath());
    assert t == s.(client := Sending(call, node.size.value), residue := residue);
    assert Taking(setup, t, call, node.size.value);
  }

  lemma {:induction false} FirstOfGet(setup: Setup, s: State, node: Node, residue: Bytes)
    requires AtHeader(setup, s, Do(Request(GET, node)), residue)
    ensures Kept(setup, s, OnFirst(setup.digest, s, Do(Request(GET, node)), PlanGet(s.base, node).params, residue))
  {
    if Served(s.base, node.AbsolutePath()) {
      GetServed(setup, s, node, residue);
    } else {
      ParseOfToString(FILE_NOT_FOUND, INT_MIN, INT_MAX);
      var params := PlanGet(s.base, node).params;
      assert OnGetRefused(s.world.mirror, node, params) == Some(s.world.mirror - {node.AbsolutePath()});
    }
  }

  lemma {:induction false} GetServed(setup: Setup, s: State, node: Node, residue: Bytes)
    requires AtHeader(setup, s, Do(Request(GET, node)), residue) && Served(s.base, node.AbsolutePath())
    ensures Kept(setup, s, OnFirst(setup.digest, s, Do(Request(GET, node)), PlanGet(s.base, node).params, residue))
  {
    var content := s.base.store.files[FullPath(s.base.user, node.AbsolutePath())];
    ParseOfToString(|content|, LONG_MIN, LONG_MAX);
    assert ToInt32(|content|) == |content|;
    assert |residue| == |content| ==> residue == content;
  }

  lemma FirstOfDelete(setup: Setup, s: State, node: Node, residue: Bytes)
    requires AtHeader(setup, s, Do(Request(DELETE, node)), residue)
    ensures Kept(setup, s,
                 OnFirst(setup.digest, s, Do(Request(DELETE, node)), PlanDelete(s.base, node).params, residue))
  {
  }

  /** What the snapshot reader has when it has all of a payload without a NUL. */
  lemma SnapshotRead(got: Bytes, way: Bytes, payload: Bytes)
    requires got + way == payload && NoNul(payload)
    ensures CString(got) == got && |got| <= |payload|
    ensures |got| == |payload| ==> got == payload
  {
    NoNulParts(got, way);
  }

  lemma ReadOnKeeps(setup: Setup, s: State, t: State, call: Call, got: Bytes)
    requires Planned(setup, s, call) && call.Do? && call.req.verb.SNAPSHOT?
    requires !s.client.Idle? && !s.client.Broken? && s.client.call == call
    requires t == s.(s2c := t.s2c) && s.world == s.base && s.sent == "" && s.c2s == "" && s.server == Parked("")
    requires got + t.s2c == Render(s.listing, UserIndex(s.base.store, s.base.user))
    ensures Kept(setup, s, ReadOn(t, call, |Render(s.listing, UserIndex(s.base.store, s.base.user))| - |got|, got))
  {
    var m := UserIndex(s.base.store, s.base.user);
    var payload := Render(s.listing, m);
    CleanRender(s.listing, m);
    SnapshotRead(got, t.s2c, payload);
    SnapshotMerged(s.base.mirror, s.listing, m);
  }

  lemma {:induction false} SnapshotHeaderRead(s: State, call: Call, params: seq<Bytes>, length: int, residue: Bytes)
    requires |params| == 3 && params[0] == "OK" && Stoi(params[1]).Some? && Stoi(params[2]) == Some(length)
    requires CString(residue) == residue
    ensures OnSnapshotHeader(s, call, params, residue) == ReadOn(s, call, length - |residue|, residue)
  {
  }

  lemma FirstOfSnapshot(setup: Setup, s: State, node: Node, residue: Bytes)
    requires AtHeader(setup, s, Do(Request(SNAPSHOT, node)), residue)
    ensures Kept(setup, s,
                 OnFirst(setup.digest, s, Do(Request(SNAPSHOT, node)), PlanSnapshot(s.base, s.listing).params, residue))
  {
    var m := UserIndex(s.base.store, s.base.user);
    var payload := Render(s.listing, m);
    assert residue + s.s2c + Future(s.server) == payload && Future(s.server) == "";
    CleanRender(s.listing, m);
    SnapshotRead(residue, s.s2c, payload);
    StoiOfToString(|m|);
    StoiOfToString(|payload|);
    SnapshotHeaderRead(s, Do(Request(SNAPSHOT, node)), PlanSnapshot(s.base, s.listing).params, |payload|, residue);
    ReadOnKeeps(setup, s, s, Do(Request(SNAPSHOT, node)), residue);
  }

  lemma ClientHandleFirstKeeps(setup: Setup, s: State)
    requires Inv(setup, s) && s.client.First? && Enabled(setup, s, ClientHandle)
    ensures Kept(setup, s, Step(setup, s, ClientHandle))
  {
    ClientReadsAnswer(setup, s);
    var call, residue := s.client.call, BeyondHeader(s.client.buf);
    assert AtHeader(setup, s, call, residue);
    match call {
      case Login(name, pwd) =>
      case Do(Request(PUT, node)) => FirstOfPut(setup, s, node, residue);
      case Do(Request(GET, node)) => FirstOfGet(setup, s, node, residue);
      case Do(Request(DELETE, node)) => FirstOfDelete(setup, s, node, residue);
      case Do(Request(SNAPSHOT, node)) => FirstOfSnapshot(setup, s, node, residue);
    }
  }

  /** The client of the product does with a header and what follows it what the driver of module
      Clients is proved to do, whenever that ends the request. */
  lemma HandlesAsDriver(digest: Sha256, s: State, req: Request, params: seq<Bytes>, rest: Bytes)
    requires !req.verb.PUT?
    ensures var t := OnFirst(digest, s, Do(req), params, rest);
            t.client.Idle? ==>
              Handled(digest, req, true, params, rest, s.world.mirror, t.world.mirror, s.world.local, t.world.local)
  {
    match req.verb {
      case GET => GetHandlesAsDriver(digest, s, req.node, params, rest);
      case SNAPSHOT => SnapshotHandlesAsDriver(s, req, params, rest);
      case _ =>
    }
  }

  lemma {:induction false} GetHandlesAsDriver(digest: Sha256, s: State, node: Node, params: seq<Bytes>, rest: Bytes)
    ensures var t := OnGetHeader(digest, s, Do(Request(GET, node)), node, params, rest);
            t.client.Idle? ==>
              Handled(digest, Request(GET, node), true, params, rest, s.world.mirror, t.world.mirror, s.world.local,
                      t.world.local)
  {
  }

  lemma {:induction false} SnapshotHandlesAsDriver(s: State, req: Request, params: seq<Bytes>, rest: Bytes)
    requires req.verb.SNAPSHOT?
    ensures var t := OnSnapshotHeader(s, Do(req), params, rest);
            t.client.Idle? ==>
              && t.world.local == s.world.local
              && (!SnapshotOkay(params) ==> t.world.mirror == s.world.mirror)
              && (SnapshotOkay(params) && NoNul(rest) ==> t.world.mirror == OnSnapshotBody(s.world.mirror, rest))
  {
    if NoNul(rest) { CStringExact(rest); }
  }

  /** And with the last reply to a PUT. */
  lemma HandlesLastAsDriver(s: State, req: Request, stream: Bytes)
    requires req.verb.PUT? && FirstHeader(stream).Some?
    ensures var t := OnLast(s, Do(req), FirstHeader(stream).value, AfterHeader(stream));
            LastReply(req.node, stream, !t.client.Broken?, s.world.mirror, t.world.mirror)
  {
  }

  /** What the client of the product makes of the bytes it has read: whenever it handles a header, it
      does what the contracts of the driver say. */
  lemma StepAsDriver(setup: Setup, s: State)
    requires Enabled(setup, s, ClientHandle) && s.client.call.Do?
    ensures var req, stream, t := s.client.call.req, s.client.buf, Step(setup, s, ClientHandle);
            && FirstHeader(stream).Some?
            && (s.client.First? && !req.verb.PUT? && t.client.Idle? ==>
                  Responded(setup.digest, req, true, stream, s.world.mirror, t.world.mirror, s.world.local,
                            t.world.local))
            && (s.client.First? && req.verb.PUT? && t.client.Idle? ==>
                  PutAnswered(req.node, FirstHeader(stream).value, s.world.mirror, t.world.mirror))
            && (s.client.Last? && req.verb.PUT? ==>
                  LastReply(req.node, stream, !t.client.Broken?, s.world.mirror, t.world.mirror))
  {
    var req, stream := s.client.call.req, s.client.buf;
    assert FirstHeader(stream) == Some(HeaderOf(stream)) && AfterHeader(stream) == BeyondHeader(stream);
    if s.client.Last? {
      if req.verb.PUT? { HandlesLastAsDriver(s, req, stream); }
    } else if req.verb.PUT? {
      PutAnsweredAsDriver(s, req.node, HeaderOf(stream), BeyondHeader(stream));
    } else {
      HandlesAsDriver(setup.digest, s, req, HeaderOf(stream), BeyondHeader(stream));
    }
  }

  lemma PutAnsweredAsDriver(s: State, node: Node, params: seq<Bytes>, residue: Bytes)
    ensures var t := OnPutHeader(s, Do(Request(PUT, node)), node, params, residue);
            t.client.Idle? ==> PutAnswered(node, params, s.world.mirror, t.world.mirror)
  {
  }

  lemma VerdictIsMessage(digest: Sha256, node: Node, body: Bytes)
    requires |node.hashes| > 0 && CleanField(node.LastHash())
    ensures IsMessage(Verdict(digest, node, body).text, Verdict(digest, node, body).params)
  {
    OkayWithIsMessage(node.LastHash());
    RefusalIsMessage(FILE_HASH_MISMATCH);
  }

  lemma ClientHandleLastKeeps(setup: Setup, s: State)
    requires Inv(setup, s) && s.client.Last? && Enabled(setup, s, ClientHandle)
    ensures Kept(setup, s, Step(setup, s, ClientHandle))
  {
    var call, buf := s.client.call, s.client.buf;
    assert !Complete("");
    assert Judged(setup, s, call, buf);
    var node := call.req.node;
    var pl := Verdict(setup.digest, node, s.sent);
    VerdictIsMessage(setup.digest, node, s.sent);
    assert buf + s.s2c + "" == pl.text + "";
    ReadsHeader(pl.text, pl.params, "", buf, s.s2c, "");
    assert BeyondHeader(buf) == "" && s.s2c == "";
    LastFinishes(setup, s, call);
  }

  lemma LastFinishes(setup: Setup, s: State, call: Call)
    requires s.client.Last? && s.client.call == call && Judged(setup, s, call, s.client.buf) && s.s2c == ""
    ensures Kept(setup, s, OnLast(s, call, Verdict(setup.digest, call.req.node, s.sent).params, ""))
  {
    ParseOfToString(FILE_HASH_MISMATCH, INT_MIN, INT_MAX);
  }

  lemma ClientSendKeeps(setup: Setup, s: State, data: Bytes)
    requires Inv(setup, s) && Enabled(setup, s, ClientSend(data))
    ensures Kept(setup, s, Step(setup, s, ClientSend(data)))
  {
    SentGrows(setup, s, Step(setup, s, ClientSend(data)), s.client.call, s.client.left, data);
  }

  /** What the client sends goes on its way to the server. */
  lemma SentGrows(setup: Setup, s: State, t: State, call: Call, left: int, data: Bytes)
    requires Taking(setup, s, call, left) && 1 <= |data| <= left
    requires t == s.(c2s := s.c2s + data, sent := s.sent + data, client := t.client, residue := t.residue)
    ensures Taking(setup, t, call, left - |data|)
  {
    var received := |s.sent| - |s.c2s|;
    assert t.sent[..received] == s.sent[..received];
    assert t.sent[received..] == s.sent[received..] + data;
  }

  lemma ClientTakeKeeps(setup: Setup, s: State, n: nat)
    requires Inv(setup, s) && Enabled(setup, s, ClientTake(n))
    ensures Kept(setup, s, Step(setup, s, ClientTake(n)))
  {
    StepTake(setup, s, n);
    var got, data, way := s.client.got, s.s2c[..n], s.s2c[n..];
    TakeRegroups(got, s.s2c, n, Future(s.server));
    if s.client.Reading? {
      ReadPartKeeps(setup, s, s.(s2c := way), s.client.call, got, data);
    } else {
      SaveKeeps(setup, s, s.(s2c := way), s.client.call, got + data);
    }
  }

  lemma TakeRegroups(got: Bytes, way: Bytes, n: nat, future: Bytes)
    requires n <= |way|
    ensures got + way[..n] + way[n..] == got + way && |got + way[..n]| == |got| + n
    ensures got + way[..n] + way[n..] + future == got + way + future
  {
  }

  lemma StepTake(setup: Setup, s: State, n: nat)
    requires Enabled(setup, s, ClientTake(n)) && s.client.call.Do?
    ensures var t, got := s.(s2c := s.s2c[n..]), s.client.got;
            Step(setup, s, ClientTake(n))
            == if s.client.Reading? then ReadOn(t, s.client.call, s.client.left - n, got + CString(s.s2c[..n]))
               else Save(setup.digest, t, s.client.call, s.client.left - n, got + s.s2c[..n])
  {
  }

  /** The client has one more part of the snapshot it is reading. */
  lemma ReadPartKeeps(setup: Setup, s: State, t: State, call: Call, got: Bytes, data: Bytes)
    requires Inv(setup, s) && s.client.Reading? && s.client.call == call && t == s.(s2c := t.s2c)
    requires got + data + t.s2c == Render(s.listing, UserIndex(s.base.store, s.base.user))
    ensures CString(data) == data
    ensures Kept(setup, s,
                 ReadOn(t, call, |Render(s.listing, UserIndex(s.base.store, s.base.user))| - |got + data|, got + data))
  {
    CleanRender(s.listing, UserIndex(s.base.store, s.base.user));
    NoNulParts(got + data, t.s2c);
    NoNulParts(got, data);
    ReadOnKeeps(setup, s, t, call, got + data);
  }

  /** The client has one more part of the file it is saving. */
  lemma SaveKeeps(setup: Setup, s: State, t: State, call: Call, got: Bytes)
    requires Inv(setup, s) && s.client.Saving? && s.client.call == call && t == s.(s2c := t.s2c)
    requires got + t.s2c + Future(s.server) == s.base.store.files[FullPath(s.base.user, KeyOf(call))]
    ensures Kept(setup, s,
                 Save(setup.digest, t, call, |s.base.store.files[FullPath(s.base.user, KeyOf(call))]| - |got|, got))
  {
    var content := s.base.store.files[FullPath(s.base.user, KeyOf(call))];
    if |got| == |content| {
      assert t.s2c == "" && Future(s.server) == "" && got == content;
    }
  }

  lemma StepSent(setup: Setup, s: State)
    requires Enabled(setup, s, ServerSent)
    ensures var b := s.server.next;
            var n := Chunk(b.remaining);
            Step(setup, s, ServerSent)
            == s.(server := PcOf(SendFile(b.rest[n..], b.remaining - n)), s2c := s.s2c + b.rest[..n])
  {
    var b := s.server.next;
    EncodeOne(Raw(b.rest[..Chunk(b.remaining)]));
  }

  lemma Regroup(a: Bytes, b: Bytes, c: Bytes)
    ensures a + (b + c) == a + b + c
  {
  }

  /** Sending a chunk moves it from what is still to be written to what is on its way. */
  lemma SentMoves(setup: Setup, s: State)
    requires Enabled(setup, s, ServerSent) && WellSent(s.server)
    ensures var t := Step(setup, s, ServerSent);
            && t == s.(server := t.server, s2c := t.s2c)
            && (t.server == Parked("") || (t.server.Busy? && t.server.next.SendBody? && WellSent(t.server)))
            && t.s2c + Future(t.server) == s.s2c + Future(s.server)
  {
    var b := s.server.next;
    var n := Chunk(b.remaining);
    StepSent(setup, s);
    assert b.rest[..n] + b.rest[n..] == b.rest;
    Regroup(s.s2c, b.rest[..n], b.rest[n..]);
  }

  lemma ServerSentKeeps(setup: Setup, s: State)
    requires Inv(setup, s) && Enabled(setup, s, ServerSent)
    ensures Kept(setup, s, Step(setup, s, ServerSent))
  {
    var t := Step(setup, s, ServerSent);
    if s.client.First? {
      var call, buf := s.client.call, s.client.buf;
      assert Answered(setup, s, call, buf);
      SentMoves(setup, s);
      Regroup(buf, s.s2c, Future(s.server));
      Regroup(buf, t.s2c, Future(t.server));
      assert Answered(setup, t, call, buf);
    } else {
      SentMoves(setup, s);
      Regroup(s.client.got, s.s2c, Future(s.server));
      Regroup(s.client.got, t.s2c, Future(t.server));
    }
  }

  lemma BodyGrows(digest: Sha256, w: World, key: string, received: Bytes, data: Bytes, remaining: int, hash: string,
                  listing: seq<string>)
    ensures var full := FullPath(w.user, key);
            OnBody(digest, Uploaded(w, key, received), w.user, ReadBody(full, key, remaining, hash), data,
                   GoodEnv(listing))
            == ReceiveBody(digest, Uploaded(w, key, received + data), w.user, full, key, remaining - |data|, hash,
                           GoodEnv(listing))
  {
    var full := FullPath(w.user, key);
    var st := Uploaded(w, key, received);
    assert AppendTo(st.files, full, data) == Uploaded(w, key, received + data).files;
  }

  /** The bytes of the body that have arrived, and those on their way. */
  lemma TakeSplits(sent: Bytes, way: Bytes, n: nat)
    requires |way| <= |sent| && way == sent[|sent| - |way|..] && n <= |way|
    ensures sent[..|sent| - |way|] + way[..n] == sent[..|sent| - |way[n..]|]
    ensures way[n..] == sent[|sent| - |way[n..]|..]
    ensures n == |way| ==> sent[..|sent| - |way[n..]|] == sent
  {
  }

  lemma TakeSome(setup: Setup, s: State, call: Call, left: int, n: nat, listing: seq<string>)
    requires Enabled(setup, s, ServerTake(n, listing)) && Taking(setup, s, call, left) && n < |s.c2s| + left
    ensures var t := Step(setup, s, ServerTake(n, listing));
            Taking(setup, t, call, left) && t.client == s.client && t.log == s.log && t.base == s.base
            && t.residue == s.residue
  {
    var node, key := call.req.node, KeyOf(call);
    TakeSplits(s.sent, s.c2s, n);
    BodyGrows(setup.digest, s.base, key, s.sent[..|s.sent| - |s.c2s|], s.c2s[..n], |s.c2s|
      + left, node.LastHash(), listing);
    assert EncodeAll([]) == "";
  }

  /** A part of the body arrives: the file grows by it; with the last one the server judges. */
  lemma ServerTakeKeeps(setup: Setup, s: State, n: nat, listing: seq<string>)
    requires Inv(setup, s) && Enabled(setup, s, ServerTake(n, listing))
    ensures Kept(setup, s, Step(setup, s, ServerTake(n, listing)))
  {
    if s.client.Sending? {
      TakeSome(setup, s, s.client.call, s.client.left, n, listing);
    } else if s.client.Last? && n < |s.c2s| {
      assert Taking(setup, s, s.client.call, 0);
      TakeSome(setup, s, s.client.call, 0, n, listing);
    } else {
      OnlyUploadsTake(setup, s);
      TakeLast(setup, s, s.client.call, n, listing);
    }
  }

  lemma OnlyUploadsTake(setup: Setup, s: State)
    requires Inv(setup, s) && s.server.Busy? && s.server.next.ReadBody? && s.c2s != "" && !s.client.Sending?
    ensures s.client.Last? && s.client.buf == "" && Taking(setup, s, s.client.call, 0)
  {
  }

  lemma TakeLast(setup: Setup, s: State, call: Call, n: nat, listing: seq<string>)
    requires Inv(setup, s) && Enabled(setup, s, ServerTake(n, listing)) && s.client.Last? && s.client.call == call
    requires Taking(setup, s, call, 0) && |s.c2s| == n && s.client.buf == ""
    ensures Judged(setup, Step(setup, s, ServerTake(n, listing)), call, "")
  {
    var node, key := call.req.node, KeyOf(call);
    TakeSplits(s.sent, s.c2s, n);
    BodyGrows(setup.digest, s.base, key, s.sent[..|s.sent| - |s.c2s|], s.c2s[..n], |s.c2s|, node.LastHash(), listing);
    Judge(setup.digest, s.base, node, s.sent, listing);
  }

  /** With the whole body there, the server does what `Closed` says and replies with the verdict. */
  lemma Judge(digest: Sha256, w: World, node: Node, body: Bytes, listing: seq<string>)
    requires |node.hashes| > 0
    ensures var key, hash := node.AbsolutePath(), node.LastHash();
            var o := FinishBody(digest, Uploaded(w, key, body), w.user, FullPath(w.user, key), key, hash,
                                GoodEnv(listing));
            && o.store == Closed(digest, Opened(w.store, w.user, key), w.user, key, hash, body)
            && o.user == w.user && o.next == ReadRequest
            && EncodeAll(o.out) == Verdict(digest, node, body).text
  {
    var key := node.AbsolutePath();
    var full := FullPath(w.user, key);
    var st := Opened(w.store, w.user, key);
    EncodeOne(OkayWith(node.LastHash()));
    EncodeOne(Failed(FILE_HASH_MISMATCH));
    assert st.files[full := body] - {full} == st.files - {full};
    assert Uploaded(w, key, body) == st.(files := st.files[full := body]);
  }

  lemma BeginKeeps(setup: Setup, s: State, call: Call)
    requires Inv(setup, s) && Enabled(setup, s, Begin(call))
    ensures Inv(setup, Step(setup, s, Begin(call)))
  {
    var t := Step(setup, s, Begin(call));
    assert t.server.buf + t.c2s == CallText(call);
    assert Waiting(setup, t, call, "");
  }

  lemma StepKeeps(setup: Setup, s: State, a: Move)
    requires Inv(setup, s) && Enabled(setup, s, a)
    ensures Inv(setup, Step(setup, s, a)) && (!a.Begin? ==> Kept(setup, s, Step(setup, s, a)))
  {
    match a {
      case Begin(call) => BeginKeeps(setup, s, call);
      case ClientRead(n) => ClientReadKeeps(setup, s, n);
      case ClientHandle =>
        if s.client.First? { ClientHandleFirstKeeps(setup, s); } else { ClientHandleLastKeeps(setup, s); }
      case ClientSend(data) => ClientSendKeeps(setup, s, data);
      case ClientTake(n) => ClientTakeKeeps(setup, s, n);
      case ServerRead(n) => ServerReadKeeps(setup, s, n);
      case ServerHandle(listing) => ServerHandleKeeps(setup, s, listing);
      case ServerTake(n, listing) => ServerTakeKeeps(setup, s, n, listing);
      case ServerSent => ServerSentKeeps(setup, s);
    }
  }

  lemma ReplayStep(setup: Setup, w0: World, s: State, a: Move)
    requires Inv(setup, s) && Enabled(setup, s, a) && Replayed(setup, w0, s)
    ensures Replayed(setup, w0, Step(setup, s, a))
  {
    StepKeeps(setup, s, a);
    if !a.Begin? { ReplayKept(setup, w0, s, Step(setup, s, a)); }
  }

  lemma ReplayKept(setup: Setup, w0: World, s: State, t: State)
    requires Kept(setup, s, t) && Replayed(setup, w0, s)
    ensures Replayed(setup, w0, t)
  {
    if t.client.Idle? {
      var n := |s.log|;
      assert t.log[..n] == s.log && t.log[n] == (s.client.call, s.sent);
      assert forall i :: 0 <= i < n ==> t.log[i] == s.log[i];
      assert Replay(setup.digest, w0, t.log) == Exchange(setup.digest, s.base, s.client.call, s.sent);
    }
  }

  lemma StepKeepsAll(setup: Setup, w0: World, s: State, a: Move)
    requires Inv(setup, s) && Enabled(setup, s, a) && Replayed(setup, w0, s)
    ensures Inv(setup, Step(setup, s, a)) && Replayed(setup, w0, Step(setup, s, a))
  {
    StepKeeps(setup, s, a);
    ReplayStep(setup, w0, s, a);
  }

  /** What the server has sent in answer to a call that ends, and what the driver is proved to make of
      just those bytes, however they were cut. */
  ghost predicate EndedAsDriver(setup: Setup, base: World, call: Call, listing: seq<string>, body: Bytes, w: World)
    requires call.Do? && Sane(setup, base, call) && Enumerates(listing, UserIndex(base.store, base.user))
  {
    var req, pl := call.req, PlanOf(setup, base, call, listing);
    if !req.verb.PUT? then
      && FirstHeader(pl.text + pl.rest).Some?
      && Responded(setup.digest, req, true, pl.text + pl.rest, base.mirror, w.mirror, base.local, w.local)
    else if AlreadyThere(setup.digest, base.store, base.user, KeyOf(call), req.node.LastHash()) then
      PutAnswered(req.node, pl.params, base.mirror, w.mirror) && w.local == base.local
    else
      LastReply(req.node, Verdict(setup.digest, req.node, body).text, true, base.mirror, w.mirror)
      && w.local == base.local
  }

  /** Whenever a call ends, whatever it took to read its answer, mirror and files are what the contracts
      of the driver say of the bytes the server sent. */
  lemma CallEndsAsDriver(setup: Setup, s: State, a: Move)
    requires Inv(setup, s) && Enabled(setup, s, a) && !a.Begin? && Step(setup, s, a).client.Idle? && s.client.call.Do?
    ensures Planned(setup, s, s.client.call)
    ensures EndedAsDriver(setup, s.base, s.client.call, s.listing, s.sent, Step(setup, s, a).world)
  {
    var call := s.client.call;
    StepKeeps(setup, s, a);
    EndIsPlanned(setup, s, a);
    if call.req.verb.PUT? {
      PutEndsAsDriver(setup, s.base, call.req.node, s.sent);
    } else {
      ExchangeAsDriver(setup, s.base, call.req, s.sent, s.listing);
    }
  }

  lemma EndIsPlanned(setup: Setup, s: State, a: Move)
    requires Inv(setup, s) && Enabled(setup, s, a) && !a.Begin? && Step(setup, s, a).client.Idle?
    ensures Planned(setup, s, s.client.call)
  {
    match s.client {
      case First(call, buf) =>
        assert a.ClientHandle?;
        ClientReadsAnswer(setup, s);
      case Last(call, buf) => assert Taking(setup, s, call, 0) || Judged(setup, s, call, buf);
      case _ =>
    }
  }

  lemma {:induction false} PutEndsAsDriver(setup: Setup, base: World, node: Node, body: Bytes)
    requires Sane(setup, base, Do(Request(PUT, node)))
    ensures var w := Put(setup.digest, base, node, body);
            && w.local == base.local
            && if AlreadyThere(setup.digest, base.store, base.user, node.AbsolutePath(), node.LastHash()) then
                 PutAnswered(node, PlanPut(setup.digest, base, node).params, base.mirror, w.mirror)
               else
                 LastReply(node, Verdict(setup.digest, node, body).text, true, base.mirror, w.mirror)
  {
    if AlreadyThere(setup.digest, base.store, base.user, node.AbsolutePath(), node.LastHash()) {
      ParseOfToString(FILE_ALREADY_EXISTS, INT_MIN, INT_MAX);
      var params := PlanPut(setup.digest, base, node).params;
      assert OnError(base.mirror, node, params) == Some(InsertNew(base.mirror, node.AbsolutePath(), node));
    } else {
      VerdictReply(setup.digest, node, body, base.mirror);
    }
  }

  lemma {:induction false} VerdictReply(digest: Sha256, node: Node, body: Bytes, mirror: Mirror)
    requires |node.hashes| > 0 && CleanField(node.LastHash())
    ensures var m := if node.LastHash()
              == Sha(digest, body) then InsertNew(mirror, node.AbsolutePath(), node) else mirror;
            LastReply(node, Verdict(digest, node, body).text, true, mirror, m)
  {
    var pl := Verdict(digest, node, body);
    VerdictIsMessage(digest, node, body);
    StreamOfPlan(pl);
    assert pl.text + pl.rest == pl.text;
    ParseOfToString(FILE_HASH_MISMATCH, INT_MIN, INT_MAX);
  }

  ghost predicate IsRun(setup: Setup, ss: seq<State>, acts: seq<Move>) {
    && |ss| == |acts| + 1
    && forall i :: 0 <= i < |acts| ==> Enabled(setup, ss[i], acts[i]) && ss[i + 1] == Step(setup, ss[i], acts[i])
  }

  /** Client and server right after the connection is made. */
  ghost predicate Initial(s: State) {
    s.client == Idle && s.residue == "" && s.server == Parked("") && s.c2s == "" && s.s2c == "" && s.log == []
  }

  lemma {:induction false} RunKeeps(setup: Setup, ss: seq<State>, acts: seq<Move>, n: nat)
    requires IsRun(setup, ss, acts) && Initial(ss[0]) && n <= |acts|
    ensures Inv(setup, ss[n]) && Replayed(setup, ss[0].world, ss[n])
  {
    if n > 0 {
      var s, a := ss[n - 1], acts[n - 1];
      assert Enabled(setup, s, a) && ss[n - 1 + 1] == Step(setup, s, a);
      RunKeeps(setup, ss, acts, n - 1);
      StepKeepsAll(setup, ss[0].world, s, a);
    }
  }

  /** Lock-step: in every state of every run, whenever the client is between two calls, no byte is on
      its way in either direction, none is left over in a buffer, and the server is parked waiting for
      a request; no end ever leaves the protocol; and the exchanges completed so far have had exactly
      the effect that module Rpc gives them, one after the other. */
  lemma {:induction false} LockStep(setup: Setup, ss: seq<State>, acts: seq<Move>, n: nat)
    requires IsRun(setup, ss, acts) && Initial(ss[0]) && n <= |acts|
    ensures Inv(setup, ss[n]) && Replayed(setup, ss[0].world, ss[n])
    ensures ss[n].client.Idle? ==>
              && ss[n].server == Parked("") && ss[n].c2s == "" && ss[n].s2c == "" && ss[n].residue == ""
              && ss[n].world == Replay(setup.digest, ss[0].world, ss[n].log)
    ensures !ss[n].client.Broken? && !ss[n].server.Gone?
  {
    RunKeeps(setup, ss, acts, n);
    ServerIsThere(setup, ss[n]);
  }

  lemma ServerIsThere(setup: Setup, s: State)
    requires Inv(setup, s)
    ensures !s.server.Gone?
  {
    match s.client {
      case First(call, buf) => assert Waiting(setup, s, call, buf) || Answered(setup, s, call, buf);
      case _ =>
    }
  }

  /** Nothing is dropped: neither the server's clearing of its buffer when it parks, nor the client's
      when it reads its next header, ever finds a byte in it. */
  lemma NothingDropped(setup: Setup, s: State)
    requires Inv(setup, s)
    ensures s.server.Parked? && Complete(s.server.buf) ==> BeyondHeader(s.server.buf) == ""
    ensures s.client.Idle? || s.client.Sending? ==> s.residue == ""
    ensures s.client.Last? && Complete(s.client.buf) ==> BeyondHeader(s.client.buf) == ""
  {
    if s.server.Parked? && Complete(s.server.buf) {
      ServerReadsCall(setup, s);
    }
    if s.client.Last? && Complete(s.client.buf) {
      var call, buf := s.client.call, s.client.buf;
      assert Judged(setup, s, call, buf) by {
        assert !Complete("");
      }
      var pl := Verdict(setup.digest, call.req.node, s.sent);
      VerdictIsMessage(setup.digest, call.req.node, s.sent);
      assert buf + s.s2c + "" == pl.text + "";
      ReadsHeader(pl.text, pl.params, "", buf, s.s2c, "");
    }
  }

  /** The store between two exchanges, or before the one under way. */
  function Settled(s: State): Store {
    if s.client.Idle? then s.world.store else s.base.store
  }

  lemma CallIsSane(setup: Setup, s: State)
    requires Inv(setup, s) && !s.client.Idle?
    ensures !s.client.Broken? && Sane(setup, s.base, s.client.call)
  {
    match s.client {
      case First(call, buf) => assert Waiting(setup, s, call, buf) || Answered(setup, s, call, buf);
      case Last(call, buf) => assert Taking(setup, s, call, 0) || Judged(setup, s, call, buf);
      case _ =>
    }
  }

  lemma StepKeepsClean(setup: Setup, s: State, a: Move)
    requires Inv(setup, s) && Enabled(setup, s, a) && CleanStore(Settled(s))
    ensures CleanStore(Settled(Step(setup, s, a)))
  {
    if !a.Begin? {
      StepKeeps(setup, s, a);
      CallIsSane(setup, s);
      CleanKept(setup, s.base, s.client.call, s.sent);
    }
  }

  /** What is asked of a snapshot is kept by every run but for its size: from a store with clean indexes
      on, an idle client can have a SNAPSHOT carried whenever its numbers fit. */
  lemma {:induction false} IndexStaysClean(setup: Setup, ss: seq<State>, acts: seq<Move>, n: nat, node: Node)
    requires IsRun(setup, ss, acts) && Initial(ss[0]) && CleanStore(ss[0].world.store) && n <= |acts|
    ensures CleanStore(Settled(ss[n]))
    ensures ss[n].client.Idle? ==>
              var w := ss[n].world;
              Enabled(setup, ss[n], Begin(Do(Request(SNAPSHOT, node)))) <==>
                w.user != "" && SmallIndex(UserIndex(w.store, w.user))
  {
    if n > 0 {
      IndexStaysClean(setup, ss, acts, n - 1, node);
      LockStep(setup, ss, acts, n - 1);
      StepKeepsClean(setup, ss[n - 1], acts[n - 1]);
      assert ss[n - 1 + 1] == Step(setup, ss[n - 1], acts[n - 1]);
    }
    var w := ss[n].world;
    assert ss[n].client.Idle? ==> CleanIndex(UserIndex(w.store, w.user));
  }

  /** The mirror covers the index in every run, between any two calls after a snapshot has been
      completed: every key the server has indexed for the user is a key of the client's mirror. */
  lemma MirrorCoversIndex(setup: Setup, ss: seq<State>, acts: seq<Move>, n: nat, i: nat)
    requires IsRun(setup, ss, acts) && Initial(ss[0]) && AllEntered(ss[0].world.store) && n <= |acts|
    requires ss[n].client.Idle? && i < |ss[n].log| && ss[n].log[i].0.Do? && ss[n].log[i].0.req.verb.SNAPSHOT?
    requires forall j :: i <= j < |ss[n].log| ==> ss[n].log[j].0.Do?
    ensures UserIndex(ss[n].world.store, ss[n].world.user).Keys <= ss[n].world.mirror.Keys
  {
    LockStep(setup, ss, acts, n);
    CoversFromSnapshot(setup.digest, ss[0].world, ss[n].log, i);
  }
}

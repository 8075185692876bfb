/** Liveness of the product of module Lockstep: a call that has begun always ends, however the two
    ends interleave and however the streams are cut; and the one kind of call that can hang. */
module Progress {
  import opened Wire
  import opened Option
  import opened Hashing
  import opened Nodes
  import opened Orderings
  import opened Stores
  import opened Protocol
  import opened Sessions
  import opened Clients
  import opened Rpc
  import opened Calls
  import opened Lockstep

  /** A step of a call under way. */
  ghost predicate Inner(setup: Setup, s: State, a: Move) {
    !a.Begin? && Enabled(setup, s, a)
  }

  lemma WaitingMoves(setup: Setup, s: State)
    requires s.client.First? && Waiting(setup, s, s.client.call, s.client.buf)
    ensures exists a :: Inner(setup, s, a)
  {
    if Complete(s.server.buf) {
      var listing := SomeOrder(UserIndex(s.world.store, s.world.user).Keys);
      assert Inner(setup, s, ServerHandle(listing));
    } else {
      var text := CallText(s.client.call);
      CallIsMessage(setup, s.base, s.client.call);
      assert s.server.buf + s.c2s == text + "";
      ReadingMessage(text, CallFields(s.client.call), "", s.server.buf, s.c2s);
      assert Inner(setup, s, ServerRead(1));
    }
  }

  lemma AnsweredMoves(setup: Setup, s: State)
    requires s.client.First? && Answered(setup, s, s.client.call, s.client.buf)
    ensures exists a :: Inner(setup, s, a)
  {
    var call, buf := s.client.call, s.client.buf;
    if Complete(buf) {
      assert Inner(setup, s, ClientHandle);
    } else {
      AnswerOutstanding(setup, s, call, buf);
      if |s.s2c| >= 1 { assert Inner(setup, s, ClientRead(1)); }
      else { assert Inner(setup, s, ServerSent); }
    }
  }

  lemma AnswerOutstanding(setup: Setup, s: State, call: Call, buf: Bytes)
    requires Answered(setup, s, call, buf) && !Complete(buf)
    ensures |s.s2c| + |Future(s.server)| > 0
    ensures |Future(s.server)| > 0 ==> s.server.Busy? && s.server.next.SendBody? && WellSent(s.server)
  {
    var pl := PlanOf(setup, s.base, call, s.listing);
    PlanIsMessage(setup, s.base, call, s.listing);
    HeaderOutstanding(pl.text, pl.params, pl.rest, buf, s.s2c, Future(s.server));
    PlanNext(setup, s.base, call, s.listing);
  }

  lemma HeaderOutstanding(text: Bytes, params: seq<Bytes>, rest: Bytes, buf: Bytes, way: Bytes, future: Bytes)
    requires IsMessage(text, params) && buf + way + future == text + rest && !Complete(buf)
    ensures |way| + |future| > 0
  {
    assert buf + (way + future) == buf + way + future;
    ReadingMessage(text, params, rest, buf, way + future);
  }

  lemma SendingMoves(setup: Setup, s: State)
    requires s.client.Sending? && s.client.left > 0
    ensures exists a :: Inner(setup, s, a)
  {
    assert Inner(setup, s, ClientSend("x"));
  }

  lemma LastMoves(setup: Setup, s: State)
    requires s.client.Last? && Inv(setup, s)
    ensures exists a :: Inner(setup, s, a)
  {
    var call, buf := s.client.call, s.client.buf;
    if Complete(buf) {
      assert Inner(setup, s, ClientHandle);
    } else if Judged(setup, s, call, buf) {
      var pl := Verdict(setup.digest, call.req.node, s.sent);
      VerdictIsMessage(setup.digest, call.req.node, s.sent);
      assert buf + s.s2c + "" == pl.text + "";
      HeaderOutstanding(pl.text, pl.params, "", buf, s.s2c, "");
      assert Inner(setup, s, ClientRead(1));
    } else {
      assert Inner(setup, s, ServerTake(1, []));
    }
  }

  lemma BodyMoves(setup: Setup, s: State)
    requires (s.client.Saving? || s.client.Reading?) && Inv(setup, s)
    ensures exists a :: Inner(setup, s, a)
  {
    if |s.s2c| >= 1 {
      assert Inner(setup, s, ClientTake(1));
    } else {
      assert s.client.got + s.s2c + Future(s.server) == s.client.got + Future(s.server);
      assert Inner(setup, s, ServerSent);
    }
  }

  /** No deadlock: while a call is under way one of the two ends can move. */
  lemma NoDeadlock(setup: Setup, s: State)
    requires Inv(setup, s) && !s.client.Idle?
    ensures exists a :: Inner(setup, s, a)
  {
    match s.client {
      case First(call, buf) =>
        if Waiting(setup, s, call, buf) { WaitingMoves(setup, s); } else { AnsweredMoves(setup, s); }
      case Sending(call, left) => SendingMoves(setup, s);
      case Last(call, buf) => LastMoves(setup, s);
      case Saving(call, left, got) => BodyMoves(setup, s);
      case Reading(call, left, got) => BodyMoves(setup, s);
    }
  }

  /** How far a call is: its phase, and the bytes that have still to move within it. */
  function Phase(s: State): nat {
    match s.client
    case Idle => 0
    case Broken => 0
    case First(call, buf) => if s.server.Parked? && s.server.buf + s.c2s != "" then 6 else 5
    case Sending(call, left) => 4
    case Last(call, buf) => if s.server.Busy? then 3 else 2
    case Saving(call, left, got) => 1
    case Reading(call, left, got) => 1
  }

  function Outstanding(s: State): nat {
    |s.c2s| + |s.s2c| + 2 * |Future(s.server)|
      + (if s.client.Sending? && s.client.left > 0 then 2 * s.client.left else 0)
  }

  ghost predicate Nearer(s: State, t: State) {
    Phase(t) < Phase(s) || (Phase(t) == Phase(s) && Outstanding(t) < Outstanding(s))
  }

  lemma HandleIsNearer(setup: Setup, s: State)
    requires Inv(setup, s) && Inner(setup, s, ClientHandle)
    ensures Nearer(s, Step(setup, s, ClientHandle))
  {
    StepKeeps(setup, s, ClientHandle);
    if s.client.First? {
      HeaderLeaves(setup.digest, s, s.client.call, HeaderOf(s.client.buf), BeyondHeader(s.client.buf));
    }
  }

  /** Once its first header is handled, a call never waits for a first header again. */
  lemma HeaderLeaves(digest: Sha256, s: State, call: Call, params: seq<Bytes>, residue: Bytes)
    ensures !OnFirst(digest, s, call, params, residue).client.First?
  {
    match call {
      case Do(Request(PUT, node)) => assert !OnPutHeader(s, call, node, params, residue).client.First?;
      case Do(Request(GET, node)) => assert !OnGetHeader(digest, s, call, node, params, residue).client.First?;
      case Do(Request(SNAPSHOT, node)) => assert !OnSnapshotHeader(s, call, params, residue).client.First?;
      case _ =>
    }
  }

  lemma ServerHandleIsNearer(setup: Setup, s: State, listing: seq<string>)
    requires Inv(setup, s) && Inner(setup, s, ServerHandle(listing))
    ensures Nearer(s, Step(setup, s, ServerHandle(listing)))
  {
    ServerReadsCall(setup, s);
    ServerHandleKeeps(setup, s, listing);
    var t := Step(setup, s, ServerHandle(listing));
    assert t.client == s.client && t.c2s == "";
    assert s.server.buf != "";
    ServerLeavesBufferEmpty(setup, s, listing);
  }

  lemma ServerLeavesBufferEmpty(setup: Setup, s: State, listing: seq<string>)
    requires Enabled(setup, s, ServerHandle(listing))
    ensures var t := Step(setup, s, ServerHandle(listing)); t.server.Parked? ==> t.server.buf == ""
  {
  }

  lemma ServerSentIsNearer(setup: Setup, s: State)
    requires Inv(setup, s) && Inner(setup, s, ServerSent)
    ensures Nearer(s, Step(setup, s, ServerSent))
  {
    assert s.client.First? || s.client.Saving?;
    assert WellSent(s.server);
    StepSent(setup, s);
  }

  lemma ServerTakeIsNearer(setup: Setup, s: State, n: nat, listing: seq<string>)
    requires Inv(setup, s) && Inner(setup, s, ServerTake(n, listing))
    ensures Nearer(s, Step(setup, s, ServerTake(n, listing)))
  {
    if s.client.Sending? {
      TakeSome(setup, s, s.client.call, s.client.left, n, listing);
    } else if s.client.Last? && n < |s.c2s| {
      assert Taking(setup, s, s.client.call, 0);
      TakeSome(setup, s, s.client.call, 0, n, listing);
    } else {
      OnlyUploadsTake(setup, s);
      TakeLast(setup, s, s.client.call, n, listing);
    }
  }

  /** Every step of a call brings it nearer to its end. */
  lemma StepIsNearer(setup: Setup, s: State, a: Move)
    requires Inv(setup, s) && Inner(setup, s, a)
    ensures Nearer(s, Step(setup, s, a))
  {
    match a {
      case ClientHandle => HandleIsNearer(setup, s);
      case ServerHandle(listing) => ServerHandleIsNearer(setup, s, listing);
      case ServerSent => ServerSentIsNearer(setup, s);
      case ServerTake(n, listing) => ServerTakeIsNearer(setup, s, n, listing);
      case ClientRead(n) => ClientReadIsNearer(setup, s, n);
      case ClientSend(data) => ClientSendIsNearer(setup, s, data);
      case ClientTake(n) => ClientTakeIsNearer(setup, s, n);
      case ServerRead(n) => ServerReadIsNearer(setup, s, n);
    }
  }

  lemma ClientReadIsNearer(setup: Setup, s: State, n: nat)
    requires Inner(setup, s, ClientRead(n))
    ensures Nearer(s, Step(setup, s, ClientRead(n)))
  {
  }

  lemma ClientSendIsNearer(setup: Setup, s: State, data: Bytes)
    requires Inv(setup, s) && Inner(setup, s, ClientSend(data))
    ensures Nearer(s, Step(setup, s, ClientSend(data)))
  {
    assert Taking(setup, s, s.client.call, s.client.left);
  }

  lemma ClientTakeIsNearer(setup: Setup, s: State, n: nat)
    requires Inv(setup, s) && Inner(setup, s, ClientTake(n))
    ensures Nearer(s, Step(setup, s, ClientTake(n)))
  {
    StepTake(setup, s, n);
  }

  lemma ServerReadIsNearer(setup: Setup, s: State, n: nat)
    requires Inv(setup, s) && Inner(setup, s, ServerRead(n))
    ensures Nearer(s, Step(setup, s, ServerRead(n)))
  {
    assert Waiting(setup, s, s.client.call, s.client.buf);
  }

  /** Whatever happens next, the call ends: it has ended, or a step is possible and every possible step
      leads to where that holds. */
  least predicate Inevitable(setup: Setup, s: State) {
    s.client.Idle?
    || ((exists a :: Inner(setup, s, a))
        && forall a :: Inner(setup, s, a) ==> Inevitable(setup, Step(setup, s, a)))
  }

  /** Every call that has begun ends, on every schedule and every segmentation. */
  lemma {:induction false} EveryCallEnds(setup: Setup, s: State)
    requires Inv(setup, s)
    ensures Inevitable(setup, s)
    decreases Phase(s), Outstanding(s)
  {
    if !s.client.Idle? {
      NoDeadlock(setup, s);
      forall a | Inner(setup, s, a) ensures Inevitable(setup, Step(setup, s, a)) {
        StepKeeps(setup, s, a);
        StepIsNearer(setup, s, a);
        EveryCallEnds(setup, Step(setup, s, a));
      }
    }
  }

  /** Nobody can move, and the call is not over. */
  ghost predicate Deadlocked(setup: Setup, s: State) {
    !s.client.Idle? && forall a :: !Inner(setup, s, a)
  }

  lemma InevitableGoesOn(setup: Setup, s: State, a: Move)
    requires Inevitable(setup, s) && !s.client.Idle? && Inner(setup, s, a)
    ensures Inevitable(setup, Step(setup, s, a))
  {
  }

  lemma DeadlockIsNoEnd(setup: Setup, s: State)
    requires Deadlocked(setup, s)
    ensures !Inevitable(setup, s)
  {
  }

  lemma EmptyBody(digest: Sha256, w: World, st: Store, node: Node, listing: seq<string>)
    requires |node.hashes| > 0
    requires st.(files := st.files[FullPath(w.user, node.AbsolutePath()) := ""])
               == Opened(w.store, w.user, node.AbsolutePath())
    ensures var key := node.AbsolutePath();
            var o := StartBody(digest, st, w.user, FullPath(w.user, key), key, 0, node.LastHash(), GoodEnv(listing));
            && o.next == ReadRequest
            && EncodeAll(o.out) == Encode(Okay) + Verdict(digest, node, "").text
  {
    var key := node.AbsolutePath();
    assert Uploaded(w, key, "") == Opened(w.store, w.user, key);
    Judge(digest, w, node, "", listing);
    if node.LastHash() == Sha(digest, "") {
      EncodeTwo(Okay, OkayWith(node.LastHash()));
    } else {
      EncodeTwo(Okay, Failed(FILE_HASH_MISMATCH));
    }
  }

  /** A PUT of a file the server does not have comes to the start of its body. */
  lemma PutStarts(digest: Sha256, w: World, node: Node, listing: seq<string>)
    requires SanePut(node) && w.user != ""
    requires !AlreadyThere(digest, w.store, w.user, node.AbsolutePath(), node.LastHash())
    ensures var key := node.AbsolutePath();
            var full := FullPath(w.user, key);
            var st := if full in w.store.files then DeleteFile(w.store, w.user, full, key, true).value.0 else w.store;
            && st.(files := st.files[full := ""]) == Opened(w.store, w.user, key)
            && HandlePut(digest, w.store, w.user, CallFields(Do(Request(PUT, node))), GoodEnv(listing))
               == StartBody(digest, st, w.user, full, key, node.size.value, node.LastHash(), GoodEnv(listing))
  {
    PutDispatch(digest, w.store, w.user, node, GoodEnv(listing));
  }

  /** The server answers a PUT of no bytes with both of its replies at once. */
  lemma EmptyPutAnswer(setup: Setup, w: World, node: Node, listing: seq<string>)
    requires SanePut(node) && node.size.value == 0 && w.user != "" && Enumerates(listing, UserIndex(w.store, w.user))
    requires !AlreadyThere(setup.digest, w.store, w.user, node.AbsolutePath(), node.LastHash())
    ensures var o := HandleParams(setup.digest, setup.accounts, w.store, w.user, CallFields(Do(Request(PUT, node))),
                                  GoodEnv(listing));
            && o.next == ReadRequest
            && EncodeAll(o.out) == Encode(Okay) + Verdict(setup.digest, node, "").text
  {
    var key := node.AbsolutePath();
    var full := FullPath(w.user, key);
    PutStarts(setup.digest, w, node, listing);
    EmptyBody(setup.digest, w,
              if full in w.store.files then DeleteFile(w.store, w.user, full, key,
                                                       true).value.0 else w.store, node, listing);
    PutIsPut(setup.digest, setup.accounts, w.store, w.user, CallFields(Do(Request(PUT, node))), GoodEnv(listing));
  }

  /** The handler runs on what the message says. */
  lemma HandleStep(setup: Setup, s: State, fields: seq<Bytes>, listing: seq<string>)
    requires s.server.Parked? && IsMessage(s.server.buf, fields)
    requires Enumerates(listing, UserIndex(s.world.store, s.world.user))
    ensures Inner(setup, s, ServerHandle(listing))
    ensures Step(setup, s, ServerHandle(listing))
         == ServerAfter(s.(listing := listing),
                        HandleParams(setup.digest, setup.accounts, s.world.store, s.world.user, fields,
                                     GoodEnv(listing)))
  {
    MessageFound(s.server.buf, fields, "");
    assert s.server.buf + "" == s.server.buf;
  }

  /** The server has read a PUT and is about to handle it. */
  ghost predicate AboutToHandle(setup: Setup, s: State, node: Node) {
    && SanePut(node) && node.size.value == 0 && s.world.user != ""
    && !AlreadyThere(setup.digest, s.world.store, s.world.user, node.AbsolutePath(), node.LastHash())
    && s.client == First(Do(Request(PUT, node)), "") && s.c2s == "" && s.s2c == ""
    && s.server == Parked(CallText(Do(Request(PUT, node))))
  }

  lemma EmptyPutStep(setup: Setup, s: State, node: Node, listing: seq<string>)
    requires AboutToHandle(setup, s, node) && Enumerates(listing, UserIndex(s.world.store, s.world.user))
    ensures Inner(setup, s, ServerHandle(listing))
    ensures var t := Step(setup, s, ServerHandle(listing));
            && t.client == s.client && t.server == Parked("") && t.c2s == ""
            && t.s2c == Encode(Okay) + Verdict(setup.digest, node, "").text
  {
    PutIsMessage(node);
    HandleStep(setup, s, CallFields(Do(Request(PUT, node))), listing);
    EmptyPutAnswer(setup, s.world, node, listing);
  }

  lemma EmptyPutHandled(setup: Setup, s: State, node: Node)
    requires AboutToHandle(setup, s, node)
    ensures !Inevitable(setup, s)
  {
    var listing := SomeOrder(UserIndex(s.world.store, s.world.user).Keys);
    EmptyPutStep(setup, s, node, listing);
    var t := Step(setup, s, ServerHandle(listing));
    BothRepliesAtOnce(setup, t, node, Verdict(setup.digest, node, "").text);
    if Inevitable(setup, s) { InevitableGoesOn(setup, s, ServerHandle(listing)); }
  }

  /** The client reads both replies in one go, and its next read of a header clears the second. */
  lemma BothRepliesAtOnce(setup: Setup, s: State, node: Node, verdict: Bytes)
    requires node.size == Some(0) && |node.hashes| > 0
    requires s.client == First(Do(Request(PUT, node)), "") && s.server == Parked("") && s.c2s == ""
    requires s.s2c == Encode(Okay) + verdict
    ensures !Inevitable(setup, s)
  {
    var call := Do(Request(PUT, node));
    var n := |s.s2c|;
    assert !Complete("");
    OkayIsMessage();
    MessageFound(Encode(Okay), ["OK"], verdict);
    assert Inner(setup, s, ClientRead(n));
    var t := Step(setup, s, ClientRead(n));
    assert t == s.(client := First(call, s.s2c), s2c := "") by {
      assert s.s2c[..n] == s.s2c && "" + s.s2c == s.s2c;
    }
    SecondIsCleared(setup, t, node);
    if Inevitable(setup, s) { InevitableGoesOn(setup, s, ClientRead(n)); }
  }

  lemma SecondIsCleared(setup: Setup, t: State, node: Node)
    requires node.size == Some(0) && t.client.First? && t.client.call == Do(Request(PUT, node))
    requires Complete(t.client.buf) && HeaderOf(t.client.buf) == ["OK"]
    requires t.server == Parked("") && t.c2s == "" && t.s2c == ""
    ensures !Inevitable(setup, t)
  {
    assert Inner(setup, t, ClientHandle);
    var u := Step(setup, t, ClientHandle);
    assert u == AwaitLast(t, t.client.call);
    NobodyMoves(setup, u, t.client.call);
    DeadlockIsNoEnd(setup, u);
    if Inevitable(setup, t) { InevitableGoesOn(setup, t, ClientHandle); }
  }

  lemma NobodyMoves(setup: Setup, u: State, call: Call)
    requires u.client == Last(call, "") && u.server == Parked("") && u.c2s == "" && u.s2c == ""
    ensures Deadlocked(setup, u)
  {
    assert !Complete("");
  }

  /** A PUT of a file the server does not have ends on every schedule if and only if the file is not
      empty. */
  lemma PutEndsExactly(setup: Setup, s: State, node: Node)
    requires Inv(setup, s) && s.client.Idle? && s.world.user != "" && SanePut(node)
    requires !AlreadyThere(setup.digest, s.world.store, s.world.user, node.AbsolutePath(), node.LastHash())
    ensures Inevitable(setup, Begun(s, Do(Request(PUT, node)))) <==> node.size.value >= 1
  {
    var call := Do(Request(PUT, node));
    var t := Begun(s, call);
    if node.size.value >= 1 {
      assert Enabled(setup, s, Begin(call));
      BeginKeeps(setup, s, call);
      EveryCallEnds(setup, t);
    } else {
      var n := |CallText(call)|;
      assert !Complete("");
      assert t.c2s == CallText(call);
      assert Inner(setup, t, ServerRead(n));
      var u := Step(setup, t, ServerRead(n));
      assert u.server == Parked(CallText(call)) && u.c2s == "" by {
        assert t.c2s[..n] == t.c2s && "" + t.c2s == t.c2s;
      }
      EmptyPutHandled(setup, u, node);
      if Inevitable(setup, t) { InevitableGoesOn(setup, t, ServerRead(n)); }
    }
  }
}

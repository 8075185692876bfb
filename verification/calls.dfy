/** What a call looks like on the wire, what the server plans to answer, and what the client makes of
    the answer: the sequential part of the proof that the byte streams implement module Rpc. */
module Calls {
  import opened Wire
  import opened Numbers
  import opened Option
  import opened Hashing
  import opened Nodes
  import opened Stores
  import opened Protocol
  import opened Sessions
  import opened Clients
  import opened Snapshots
  import opened Rpc

  datatype Setup = Setup(digest: Sha256, accounts: map<string, string>)

  function CallFields(call: Call): seq<Bytes>
    requires call.Do? && call.req.verb.PUT? ==> call.req.node.size.Some? && |call.req.node.hashes| > 0
  {
    match call
    case Login(name, pwd) => ["LOGIN", name, pwd]
    case Do(Request(PUT, node)) =>
      ["PUT", node.AbsolutePath(), ToString(node.size.value), ToString(node.time), node.LastHash()]
    case Do(Request(GET, node)) => ["GET", node.AbsolutePath()]
    case Do(Request(DELETE, node)) => ["DELETE", node.AbsolutePath()]
    case Do(Request(SNAPSHOT, node)) => ["SNAPSHOT"]
    case Do(Request(PATCH, node)) => ["PATCH"]
  }

  /** The bytes a request starts with. */
  function CallText(call: Call): Bytes
    requires call.Do? && call.req.verb.PUT? ==> call.req.node.size.Some? && |call.req.node.hashes| > 0
  {
    Message(CallFields(call))
  }

  lemma JoinFirst(first: Bytes, others: seq<Bytes>)
    requires |others| > 0
    ensures Join([first] + others, PARAM_DELIMITER) == first + PARAM_DELIMITER + Join(others, PARAM_DELIMITER)
  {
    assert ([first] + others)[1..] == others;
  }

  lemma Join2(a: Bytes, b: Bytes)
    ensures Join([a, b], PARAM_DELIMITER) == a + PARAM_DELIMITER + b
  {
    assert [a, b][1..] == [b];
  }

  /** The client builds just these bytes. */
  lemma CallTextAsWritten(req: Request)
    requires !req.verb.PATCH? && (req.verb.PUT? ==> req.node.size.Some? && |req.node.hashes| > 0)
    ensures CallText(Do(req)) == HeaderText(req)
  {
    var node := req.node;
    match req.verb {
      case GET => Join2("GET", node.AbsolutePath());
      case DELETE => Join2("DELETE", node.AbsolutePath());
      case PUT => PutTextAsWritten(node);
      case SNAPSHOT =>
    }
  }

  lemma LoginTextAsWritten(name: string, pwd: string)
    ensures CallText(Login(name, pwd)) == "LOGIN" + PARAM_DELIMITER + name + PARAM_DELIMITER + pwd + REQUEST_DELIMITER
  {
    assert ["LOGIN", name, pwd] == ["LOGIN"] + [name, pwd];
    JoinFirst("LOGIN", [name, pwd]);
    Join2(name, pwd);
  }

  lemma PutTextAsWritten(node: Node)
    requires node.size.Some? && |node.hashes| > 0
    ensures CallText(Do(Request(PUT, node))) == "PUT" + PARAM_DELIMITER + node.PathSizeTimeHash() + REQUEST_DELIMITER
  {
    var d := PARAM_DELIMITER;
    var a, b, c, e := node.AbsolutePath(), ToString(node.size.value), ToString(node.time), node.LastHash();
    assert ["PUT", a, b, c, e] == ["PUT"] + [a, b, c, e];
    JoinFirst("PUT", [a, b, c, e]);
    JoinOfFour(a, b, c, e);
    assert a + d + (b + d + (c + d + e)) == a + d + b + d + c + d + e;
  }

  lemma JoinOfFour(a: Bytes, b: Bytes, c: Bytes, e: Bytes)
    ensures Join([a, b, c, e], PARAM_DELIMITER)
              == a + PARAM_DELIMITER + (b + PARAM_DELIMITER + (c + PARAM_DELIMITER + e))
  {
    assert [a, b, c, e] == [a] + [b, c, e] && [b, c, e] == [b] + [c, e];
    JoinFirst(a, [b, c, e]);
    JoinFirst(b, [c, e]);
    Join2(c, e);
  }

  /** What a PUT must be for the protocol to carry it, leaving its size aside. */
  ghost predicate SanePut(node: Node) {
    && node.size.Some? && |node.hashes| > 0
    && CleanField(node.AbsolutePath()) && NoNul(node.AbsolutePath()) && CleanField(node.LastHash())
    && node.size.value <= INT_MAX && INT_MIN <= node.time <= INT_MAX
  }

  /** Paths and hashes are such as a snapshot carries. */
  ghost predicate CleanIndex(m: Index) {
    GoodIndex(m) && PrintedHashes(m) && forall k :: k in m ==> NoNul(k)
  }

  ghost predicate CleanStore(st: Store) {
    forall u :: CleanIndex(UserIndex(st, u))
  }

  /** The numbers of the header fit into an `int`. */
  ghost predicate SmallIndex(m: Index) {
    |m| <= INT_MAX && forall listing :: Enumerates(listing, m) ==> |Render(listing, m)| <= INT_MAX
  }

  /** What the index of a user must be for the protocol to carry its snapshot. */
  ghost predicate SaneIndex(m: Index) {
    CleanIndex(m) && SmallIndex(m)
  }

  lemma {:induction false} CleanRender(listing: seq<string>, m: Index)
    requires CleanIndex(m) && forall k :: k in listing ==> k in m
    ensures NoNul(Render(listing, m))
  {
    var n := |listing| - 1;
    if n >= 0 {
      CleanRender(listing[..n], m);
      var k := listing[n];
      assert k in listing;
      NoNulParts(k + PARAM_DELIMITER + m[k], REQUEST_DELIMITER);
      NoNulParts(k + PARAM_DELIMITER, m[k]);
      NoNulParts(k, PARAM_DELIMITER);
      NoNulParts(Render(listing[..n], m), Line(k, m[k]));
    }
  }

  /** Sane calls put nothing into an index that a snapshot does not carry. */
  lemma CleanKept(setup: Setup, w: World, call: Call, body: Bytes)
    requires Sane(setup, w, call) && CleanStore(w.store)
    ensures CleanStore(Exchange(setup.digest, w, call, body).store)
  {
    if call.Do? {
      var st := Exchange(setup.digest, w, call, body).store;
      forall u ensures CleanIndex(UserIndex(st, u)) {
        assert CleanIndex(UserIndex(w.store, u));
        if u != w.user { OtherUsersUntouched(setup.digest, w, call, body, u); }
        else { MineStaysClean(setup, w, call, body); }
      }
    }
  }

  lemma MineStaysClean(setup: Setup, w: World, call: Call, body: Bytes)
    requires Sane(setup, w, call) && call.Do? && CleanIndex(UserIndex(w.store, w.user))
    ensures CleanIndex(UserIndex(Exchange(setup.digest, w, call, body).store, w.user))
  {
    var before, after := UserIndex(w.store, w.user), UserIndex(Exchange(setup.digest, w, call, body).store, w.user);
    PrintedHash(setup.digest, body);
    forall k | k in after ensures GoodPath(k) && IsPrintedHash(after[k]) && NoNul(k) {
      IndexAfter(setup.digest, w, call, body, k);
      if k in before { assert GoodPath(k) && IsPrintedHash(before[k]) && NoNul(k); }
    }
  }

  /** A call the protocol carries as it is meant: clean fields, numbers an int holds, credentials that
      are accepted, and a file to send if it is a PUT. */
  ghost predicate Sane(setup: Setup, w: World, call: Call) {
    match call
    case Login(name, pwd) =>
      && CleanField(name) && CleanField(pwd) && name in setup.accounts
      && setup.accounts[name] == Sha(setup.digest, pwd + "pdsproject201920")
    case Do(Request(PUT, node)) => w.user != "" && SanePut(node) && node.size.value >= 1
    case Do(Request(GET, node)) =>
      && w.user != "" && CleanField(node.AbsolutePath())
      && (FullPath(w.user, node.AbsolutePath()) in w.store.files ==>
            |w.store.files[FullPath(w.user, node.AbsolutePath())]| <= INT_MAX)
    case Do(Request(DELETE, node)) => w.user != "" && CleanField(node.AbsolutePath())
    case Do(Request(SNAPSHOT, node)) => w.user != "" && SaneIndex(UserIndex(w.store, w.user))
    case Do(Request(PATCH, node)) => false
  }

  /** `text` is one message, and is read as `params`. */
  ghost predicate IsMessage(text: Bytes, params: seq<Bytes>) {
    && |text| >= 2 && text[|text| - 2..] == REQUEST_DELIMITER
    && Free(text[..|text| - 2], REQUEST_DELIMITER) && Params(text[..|text| - 2]) == params
  }

  lemma MessageFound(text: Bytes, params: seq<Bytes>, over: Bytes)
    requires IsMessage(text, params)
    ensures Find(text + over, REQUEST_DELIMITER) == |text| - 2
    ensures Params((text + over)[..|text| - 2]) == params
  {
    var h := text[..|text| - 2];
    assert text == h + REQUEST_DELIMITER;
    HeadFound(h, over);
  }

  lemma HeadFound(h: Bytes, over: Bytes)
    requires Free(h, REQUEST_DELIMITER)
    ensures var s := h + REQUEST_DELIMITER + over; Find(s, REQUEST_DELIMITER) == |h| && s[..|h|] == h
  {
    FrameExact(h, over);
  }

  lemma CleanIsMessage(fields: seq<Bytes>)
    requires CleanFields(fields)
    ensures IsMessage(Message(fields), fields)
  {
    var j := Join(fields, PARAM_DELIMITER);
    JoinHasNoCrLf(fields);
    MessageCrosses(fields, "");
    assert Message(fields) + "" == Message(fields);
    assert Message(fields)[..|j|] == j;
  }

  /** The reply to a LOGIN has an empty parameter, which the reader drops. */
  lemma LoginReplyIsMessage()
    ensures IsMessage(Encode(OkayWith("")), ["OK"])
  {
    var text := Encode(OkayWith(""));
    var j := "OK" + PARAM_DELIMITER + "";
    assert text == j + REQUEST_DELIMITER;
    SplitAfter("OK", PARAM_DELIMITER, "");
    SplitFree("", PARAM_DELIMITER);
    assert Params(j) == ["OK"] by {
      assert DropEmpty(["OK", ""]) == ["OK"] + DropEmpty([""]);
    }
    assert text[..|text| - 2] == j;
  }

  /** Reading a stream that starts with a message, having taken `buf` of it: the header is complete
      exactly when all of the message has been taken, and then it is read as it was meant. */
  lemma {:induction false} ReadingMessage(text: Bytes, params: seq<Bytes>, rest: Bytes, buf: Bytes, more: Bytes)
    requires IsMessage(text, params) && buf + more == text + rest
    ensures Find(buf, REQUEST_DELIMITER) < |buf| <==> |buf| >= |text|
    ensures |buf| >= |text| ==>
              Find(buf, REQUEST_DELIMITER) == |text| - 2 && Params(buf[..|text| - 2]) == params
              && buf[|text|..] + more == rest
  {
    if |buf| >= |text| {
      var over := buf[|text|..];
      assert buf == text + over && over + more == rest by {
        assert (buf + more)[..|text|] == text && (buf + more)[|text|..] == rest;
      }
      MessageFound(text, params, over);
    } else {
      ReadingTooShort(text, params, rest, buf, more);
    }
  }

  lemma {:induction false} ReadingTooShort(text: Bytes, params: seq<Bytes>, rest: Bytes, buf: Bytes, more: Bytes)
    requires IsMessage(text, params) && buf + more == text + rest && |buf| < |text|
    ensures Find(buf, REQUEST_DELIMITER) == |buf|
  {
    var s := text + rest;
    MessageFound(text, params, rest);
    forall i: nat ensures !At(buf, REQUEST_DELIMITER, i) {
      assert At(buf, REQUEST_DELIMITER, i) ==> At(s, REQUEST_DELIMITER, i) && i < |text| - 2;
    }
  }

  /** What the server does with a call: the first message of its answer, how the client reads it, what
      follows, and how the server stands afterwards. */
  datatype Plan = Plan(text: Bytes, params: seq<Bytes>, rest: Bytes, store: Store, user: string, next: Next)

  function Refusal(w: World, code: int, store: Store): Plan {
    Plan(Encode(Failed(code)), ["ERROR", ToString(code)], "", store, w.user, ReadRequest)
  }

  function PlanPut(digest: Sha256, w: World, node: Node): Plan
    requires node.size.Some? && |node.hashes| > 0
  {
    var key, hash := node.AbsolutePath(), node.LastHash();
    if AlreadyThere(digest, w.store, w.user, key, hash) then Refusal(w, FILE_ALREADY_EXISTS, w.store)
    else Plan(Encode(Okay), ["OK"], "", Opened(w.store, w.user, key), w.user,
              ReadBody(FullPath(w.user, key), key, node.size.value, hash))
  }

  function PlanGet(w: World, node: Node): Plan {
    var key := node.AbsolutePath();
    if Served(w, key) then
      var content := w.store.files[FullPath(w.user, key)];
      Plan(Encode(OkayWith(ToString(|content|))), ["OK", ToString(|content|)], content, w.store, w.user,
           SendFile(content, |content|))
    else
      Refusal(w, FILE_NOT_FOUND,
              if GetHash(w.store, w.user, key) != "" then DropHash(w.store, w.user, key) else w.store)
  }

  function PlanDelete(w: World, node: Node): Plan {
    var key := node.AbsolutePath();
    var full := FullPath(w.user, key);
    if full in w.store.files then
      Plan(Encode(OkayWith(ToString(1))), ["OK", ToString(1)], "",
           DropHash(w.store.(files := w.store.files - {full}), w.user, key), w.user, ReadRequest)
    else Refusal(w, FILE_DELETE_ERROR, DropHash(w.store, w.user, key))
  }

  ghost function PlanSnapshot(w: World, listing: seq<string>): Plan
    requires Enumerates(listing, UserIndex(w.store, w.user))
  {
    var m := UserIndex(w.store, w.user);
    var payload := Render(listing, m);
    Plan(Encode(OkayWithTwo(ToString(|m|), ToString(|payload|))), ["OK", ToString(|m|), ToString(|payload|)],
         payload, w.store, w.user, ReadRequest)
  }

  ghost function PlanOf(setup: Setup, w: World, call: Call, listing: seq<string>): Plan
    requires Sane(setup, w, call) && Enumerates(listing, UserIndex(w.store, w.user))
  {
    match call
    case Login(name, pwd) => Plan(Encode(OkayWith("")), ["OK"], "", w.store, name, ReadRequest)
    case Do(Request(PUT, node)) => PlanPut(setup.digest, w, node)
    case Do(Request(GET, node)) => PlanGet(w, node)
    case Do(Request(DELETE, node)) => PlanDelete(w, node)
    case Do(Request(SNAPSHOT, node)) => PlanSnapshot(w, listing)
  }

  lemma RefusalIsMessage(code: int)
    ensures IsMessage(Encode(Failed(code)), ["ERROR", ToString(code)])
  {
    NumberIsCleanField(code);
    CleanIsMessage(["ERROR", ToString(code)]);
  }

  lemma OkayIsMessage()
    ensures IsMessage(Encode(Okay), ["OK"])
  {
    CleanIsMessage(["OK"]);
  }

  lemma OkayWithIsMessage(param: Bytes)
    requires CleanField(param)
    ensures IsMessage(Encode(OkayWith(param)), ["OK", param])
  {
    CleanIsMessage(["OK", param]);
  }

  /** The first message of every answer is read as the plan says. */
  lemma PlanIsMessage(setup: Setup, w: World, call: Call, listing: seq<string>)
    requires Sane(setup, w, call) && Enumerates(listing, UserIndex(w.store, w.user))
    ensures var pl := PlanOf(setup, w, call, listing); IsMessage(pl.text, pl.params)
  {
    match call {
      case Login(name, pwd) => LoginReplyIsMessage();
      case Do(Request(PUT, node)) =>
        RefusalIsMessage(FILE_ALREADY_EXISTS);
        OkayIsMessage();
      case Do(Request(GET, node)) =>
        RefusalIsMessage(FILE_NOT_FOUND);
        if Served(w, node.AbsolutePath()) {
          NumberIsCleanField(|w.store.files[FullPath(w.user, node.AbsolutePath())]|);
          OkayWithIsMessage(ToString(|w.store.files[FullPath(w.user, node.AbsolutePath())]|));
        }
      case Do(Request(DELETE, node)) =>
        RefusalIsMessage(FILE_DELETE_ERROR);
        NumberIsCleanField(1);
        OkayWithIsMessage(ToString(1));
      case Do(Request(SNAPSHOT, node)) =>
        var m := UserIndex(w.store, w.user);
        NumberIsCleanField(|m|);
        NumberIsCleanField(|Render(listing, m)|);
        CleanIsMessage(["OK", ToString(|m|), ToString(|Render(listing, m)|)]);
    }
  }

  /** The request is read by the server as the fields that were written. */
  lemma CallIsMessage(setup: Setup, w: World, call: Call)
    requires Sane(setup, w, call)
    ensures IsMessage(CallText(call), CallFields(call))
  {
    if call.Do? && call.req.verb.PUT? {
      PutIsMessage(call.req.node);
    } else {
      assert CleanField("LOGIN") && CleanField("GET") && CleanField("DELETE") && CleanField("SNAPSHOT");
      CleanIsMessage(CallFields(call));
    }
  }

  /** Nothing goes wrong on the disk. */
  function GoodEnv(listing: seq<string>): Env { Env(true, true, true, 2, listing) }

  function OutcomeBytes(o: Outcome): Bytes {
    EncodeAll(o.out) + (if o.next.SendBody? then o.next.rest else "")
  }

  ghost predicate AsPlanned(o: Outcome, pl: Plan) {
    && o.store == pl.store && o.user == pl.user && o.next == pl.next
    && OutcomeBytes(o) == pl.text + pl.rest
  }

  lemma EncodeOne(r: Reply)
    ensures EncodeAll([r]) == Encode(r)
  {
    assert [r][..0] == [];
  }

  lemma EncodeTwo(r: Reply, q: Reply)
    ensures EncodeAll([r, q]) == Encode(r) + Encode(q)
  {
    EncodeOne(r);
    assert [r, q][..1] == [r];
  }

  lemma StartAsPlanned(setup: Setup, w: World, node: Node, listing: seq<string>)
    requires Sane(setup, w, Do(Request(PUT, node)))
    ensures var key := node.AbsolutePath();
            var full := FullPath(w.user, key);
            var env := GoodEnv(listing);
            if full in w.store.files then
              AsPlanned(PutOver(setup.digest, w.store, w.user, full, key, node.size.value, node.LastHash(), env),
                        PlanPut(setup.digest, w, node))
            else
              AsPlanned(StartBody(setup.digest, w.store, w.user, full, key, node.size.value, node.LastHash(), env),
                        PlanPut(setup.digest, w, node))
  {
    EncodeOne(Okay);
    EncodeOne(Failed(FILE_ALREADY_EXISTS));
  }

  lemma PutAsPlanned(setup: Setup, w: World, node: Node, listing: seq<string>)
    requires Sane(setup, w, Do(Request(PUT, node)))
    ensures AsPlanned(HandlePut(setup.digest, w.store, w.user, CallFields(Do(Request(PUT, node))), GoodEnv(listing)),
                      PlanPut(setup.digest, w, node))
  {
    StartAsPlanned(setup, w, node, listing);
    PutDispatch(setup.digest, w.store, w.user, node, GoodEnv(listing));
  }

  /** A sane PUT reaches the part of the handler that acts on the path. */
  lemma PutDispatch(digest: Sha256, st: Store, user: string, node: Node, env: Env)
    requires user != "" && SanePut(node) && env.openOk
    ensures var key := node.AbsolutePath();
            var full := FullPath(user, key);
            HandlePut(digest, st, user, CallFields(Do(Request(PUT, node))), env)
            == if full in st.files then PutOver(digest, st, user, full, key, node.size.value, node.LastHash(), env)
               else StartBody(digest, st, user, full, key, node.size.value, node.LastHash(), env)
  {
    ParseOfToString(node.size.value, LONG_MIN, LONG_MAX);
    ParseOfToString(node.time, INT_MIN, INT_MAX);
    var params := CallFields(Do(Request(PUT, node)));
    assert |params| == 5 && Stol(params[2]) == Some(node.size.value) && Stoi(params[3]).Some?;
  }

  /** A PUT that is sane save for its path, which may end in '#'. */
  ghost predicate SaneButPath(node: Node) {
    && node.size.Some? && |node.hashes| > 0 && CleanField(node.LastHash())
    && node.size.value <= INT_MAX && INT_MIN <= node.time <= INT_MAX
    && IsRemote(node.AbsolutePath())
    && NoNul(node.AbsolutePath())
    && Free(node.AbsolutePath(), PARAM_DELIMITER) && Free(node.AbsolutePath(), REQUEST_DELIMITER)
  }

  predicate EndsInHash(path: string) { |path| > 0 && path[|path| - 1] == '#' }

  /** How the header of a PUT of a path ending in '#' is read: that character goes to the size. */
  function Misread(node: Node): seq<Bytes>
    requires node.size.Some? && |node.hashes| > 0 && EndsInHash(node.AbsolutePath())
  {
    var path := node.AbsolutePath();
    ["PUT", path[..|path| - 1], "#" + ToString(node.size.value), ToString(node.time), node.LastHash()]
  }

  lemma MisreadText(node: Node)
    requires node.size.Some? && |node.hashes| > 0 && EndsInHash(node.AbsolutePath())
    ensures Message(Misread(node)) == CallText(Do(Request(PUT, node)))
  {
    var d, path := PARAM_DELIMITER, node.AbsolutePath();
    var p, size, time, hash := path[..|path| - 1], ToString(node.size.value), ToString(node.time), node.LastHash();
    assert ["PUT", path, size, time, hash] == ["PUT"] + [path, size, time, hash];
    assert ["PUT", p, "#" + size, time, hash] == ["PUT"] + [p, "#" + size, time, hash];
    JoinFirst("PUT", [path, size, time, hash]);
    JoinFirst("PUT", [p, "#" + size, time, hash]);
    JoinOfFour(path, size, time, hash);
    JoinOfFour(p, "#" + size, time, hash);
    assert path == p + "#";
    assert p + "#" + d + (size + d + (time + d + hash)) == p + d + ("#" + size + d + (time + d + hash));
  }

  lemma PartOfClean(path: Bytes)
    requires |path| >= 2 && Free(path, PARAM_DELIMITER) && Free(path, REQUEST_DELIMITER) && EndsInHash(path)
    ensures CleanField(path[..|path| - 1])
  {
    var p := path[..|path| - 1];
    PrefixIsFree(path, |path| - 1, PARAM_DELIMITER);
    PrefixIsFree(path, |path| - 1, REQUEST_DELIMITER);
    assert !At(path, PARAM_DELIMITER, |path| - 2);
  }

  lemma HashBeforeNumber(n: int)
    ensures CleanField("#" + ToString(n)) && Stol("#" + ToString(n)).None?
  {
    NumberIsClean(n);
    var f := "#" + ToString(n);
    forall i: nat ensures !At(f, PARAM_DELIMITER, i) && !At(f, REQUEST_DELIMITER, i) {
      assert i + 1 < |f| ==> f[i + 1] == ToString(n)[i];
    }
    assert SkipSpace(f) == f;
  }

  /** The header the client writes for a PUT, its path otherwise fit for the wire, ends in an exception
      that leaves the handler if and only if the path ends in '#': the size then starts with it, and
      is no number. */
  lemma HashAtEndExactly(digest: Sha256, accounts: map<string, string>, st: Store, user: string, node: Node, env: Env)
    requires SaneButPath(node) && user != "" && Walks(env, st, user) && env.removeOk && env.writes >= 2
    ensures var text := HeaderText(Request(PUT, node));
            && Find(text, REQUEST_DELIMITER) == |text| - 2
            && (HandleRequest(digest, accounts, st, user, text[..|text| - 2], env).next.Aborted? <==>
                  EndsInHash(node.AbsolutePath()))
  {
    var fields := PutFields(node);
    PutTextAsWritten(node);
    PutIsReadAs(node);
    RequestReads(digest, accounts, st, user, CallText(Do(Request(PUT, node))), fields, env);
    PutAbortsExactly(digest, accounts, st, user, node, env);
    var o := HandleParams(digest, accounts, st, user, fields, env);
    assert o.next.Aborted? <==> EndsInHash(node.AbsolutePath());
  }

  /** How the header of a PUT is read. */
  function PutFields(node: Node): seq<Bytes>
    requires node.size.Some? && |node.hashes| > 0
  {
    if EndsInHash(node.AbsolutePath()) then Misread(node) else CallFields(Do(Request(PUT, node)))
  }

  lemma PutIsReadAs(node: Node)
    requires SaneButPath(node)
    ensures IsMessage(CallText(Do(Request(PUT, node))), PutFields(node))
  {
    if EndsInHash(node.AbsolutePath()) { MisreadIsMessage(node); } else { PutIsMessage(node); }
  }

  lemma PutAbortsExactly(digest: Sha256, accounts: map<string, string>, st: Store, user: string, node: Node, env: Env)
    requires SaneButPath(node) && user != "" && Walks(env, st, user) && env.removeOk && env.writes >= 2
    ensures HandleParams(digest, accounts, st, user, PutFields(node), env).next.Aborted? <==>
              EndsInHash(node.AbsolutePath())
  {
    if EndsInHash(node.AbsolutePath()) {
      MisreadAborts(digest, accounts, st, user, node, env);
    } else {
      PutIsNotAborted(digest, accounts, st, user, node, env);
    }
  }

  lemma MisreadAborts(digest: Sha256, accounts: map<string, string>, st: Store, user: string, node: Node, env: Env)
    requires SaneButPath(node) && EndsInHash(node.AbsolutePath()) && user != "" && Walks(env, st, user)
    ensures HandleParams(digest, accounts, st, user, Misread(node), env).next.Aborted?
  {
    PutIsPut(digest, accounts, st, user, Misread(node), env);
    HashBeforeNumber(node.size.value);
    var params := Misread(node);
    assert |params| == 5 && Stol(params[2]).None?;
  }

  lemma MisreadIsMessage(node: Node)
    requires SaneButPath(node) && EndsInHash(node.AbsolutePath())
    ensures IsMessage(CallText(Do(Request(PUT, node))), Misread(node))
  {
    MisreadText(node);
    PartOfClean(node.AbsolutePath());
    HashBeforeNumber(node.size.value);
    NumberIsCleanField(node.time);
    assert CleanField("PUT");
    CleanIsMessage(Misread(node));
  }

  lemma PutIsMessage(node: Node)
    requires SanePut(node)
    ensures IsMessage(CallText(Do(Request(PUT, node))), CallFields(Do(Request(PUT, node))))
  {
    NumberIsCleanField(node.size.value);
    NumberIsCleanField(node.time);
    assert CleanField("PUT");
    CleanIsMessage(CallFields(Do(Request(PUT, node))));
  }

  /** The handler runs on the parameters a message is read as. */
  lemma RequestReads(digest: Sha256, accounts: map<string, string>, st: Store, user: string, text: Bytes,
                     fields: seq<Bytes>, env: Env)
    requires IsMessage(text, fields) && Walks(env, st, user)
    ensures Find(text, REQUEST_DELIMITER) == |text| - 2
    ensures HandleRequest(digest, accounts, st, user, text[..|text| - 2], env)
              == HandleParams(digest, accounts, st, user, fields, env)
  {
    MessageFound(text, fields, "");
    assert text + "" == text;
    var o := HandleParams(digest, accounts, st, user, fields, env);
    assert HandleRequest(digest, accounts, st, user, text[..|text| - 2], env) == o;
  }

  lemma {:induction false} PutIsPut(digest: Sha256, accounts: map<string, string>, st: Store, user: string,
                                    fields: seq<Bytes>, env: Env)
    requires |fields| > 0 && fields[0] == "PUT" && Walks(env, st, user)
    ensures HandleParams(digest, accounts, st, user, fields, env) == HandlePut(digest, st, user, fields, env)
  {
  }

  lemma PutIsNotAborted(digest: Sha256, accounts: map<string, string>, st: Store, user: string, node: Node, env: Env)
    requires user != "" && SanePut(node) && env.removeOk && env.writes >= 2 && Walks(env, st, user)
    ensures !HandleParams(digest, accounts, st, user, CallFields(Do(Request(PUT, node))), env).next.Aborted?
  {
    PutIsPut(digest, accounts, st, user, CallFields(Do(Request(PUT, node))), env);
    ParseOfToString(node.size.value, LONG_MIN, LONG_MAX);
    ParseOfToString(node.time, INT_MIN, INT_MAX);
    var params := CallFields(Do(Request(PUT, node)));
    assert |params| == 5 && Stol(params[2]) == Some(node.size.value) && Stoi(params[3]).Some?;
  }

  lemma SnapshotAsPlanned(w: World, listing: seq<string>)
    requires w.user != "" && SaneIndex(UserIndex(w.store, w.user)) && Enumerates(listing, UserIndex(w.store, w.user))
    ensures AsPlanned(HandleSnapshot(w.store, w.user, GoodEnv(listing)), PlanSnapshot(w, listing))
  {
    var m := UserIndex(w.store, w.user);
    var payload := Render(listing, m);
    assert ToInt32(|payload|) == |payload|;
    EncodeTwo(SnapshotHeader(|m|, |payload|), Raw(payload));
  }

  lemma GetAsPlanned(setup: Setup, w: World, node: Node, listing: seq<string>)
    requires Sane(setup, w, Do(Request(GET, node)))
    ensures AsPlanned(HandleGet(w.store, w.user, CallFields(Do(Request(GET, node))), GoodEnv(listing)),
                      PlanGet(w, node))
  {
    EncodeOne(Failed(FILE_NOT_FOUND));
    if Served(w, node.AbsolutePath()) {
      var content := w.store.files[FullPath(w.user, node.AbsolutePath())];
      assert ToInt32(|content|) == |content|;
      EncodeOne(OkayWith(ToString(|content|)));
    }
  }

  lemma DeleteAsPlanned(setup: Setup, w: World, node: Node, listing: seq<string>)
    requires Sane(setup, w, Do(Request(DELETE, node)))
    ensures AsPlanned(HandleDelete(w.store, w.user, CallFields(Do(Request(DELETE, node))), GoodEnv(listing)),
                      PlanDelete(w, node))
  {
    EncodeOne(Failed(FILE_DELETE_ERROR));
    EncodeOne(OkayWith(ToString(1)));
  }

  lemma LoginAsPlanned(setup: Setup, w: World, name: string, pwd: string, listing: seq<string>)
    requires Sane(setup, w, Login(name, pwd))
    ensures AsPlanned(HandleLogin(setup.digest, setup.accounts, w.store, w.user, CallFields(Login(name, pwd)),
                                  GoodEnv(listing)),
                      Plan(Encode(OkayWith("")), ["OK"], "", w.store, name, ReadRequest))
  {
    EncodeOne(OkayWith(""));
  }

  ghost predicate Carried(setup: Setup, w: World, call: Call, listing: seq<string>)
    requires Sane(setup, w, call) && Enumerates(listing, UserIndex(w.store, w.user))
  {
    AsPlanned(HandleParams(setup.digest, setup.accounts, w.store, w.user, CallFields(call), GoodEnv(listing)),
              PlanOf(setup, w, call, listing))
  }

  lemma CarriedPut(setup: Setup, w: World, node: Node, listing: seq<string>)
    requires Sane(setup, w, Do(Request(PUT, node))) && Enumerates(listing, UserIndex(w.store, w.user))
    ensures Carried(setup, w, Do(Request(PUT, node)), listing)
  {
    var params := CallFields(Do(Request(PUT, node)));
    PutAsPlanned(setup, w, node, listing);
    assert HandleParams(setup.digest, setup.accounts, w.store, w.user, params, GoodEnv(listing))
        == HandlePut(setup.digest, w.store, w.user, params, GoodEnv(listing));
  }

  lemma CarriedGet(setup: Setup, w: World, node: Node, listing: seq<string>)
    requires Sane(setup, w, Do(Request(GET, node))) && Enumerates(listing, UserIndex(w.store, w.user))
    ensures Carried(setup, w, Do(Request(GET, node)), listing)
  {
    var params := CallFields(Do(Request(GET, node)));
    GetAsPlanned(setup, w, node, listing);
    assert HandleParams(setup.digest, setup.accounts, w.store, w.user, params, GoodEnv(listing))
        == HandleGet(w.store, w.user, params, GoodEnv(listing));
  }

  lemma CarriedDelete(setup: Setup, w: World, node: Node, listing: seq<string>)
    requires Sane(setup, w, Do(Request(DELETE, node))) && Enumerates(listing, UserIndex(w.store, w.user))
    ensures Carried(setup, w, Do(Request(DELETE, node)), listing)
  {
    var params := CallFields(Do(Request(DELETE, node)));
    DeleteAsPlanned(setup, w, node, listing);
    assert HandleParams(setup.digest, setup.accounts, w.store, w.user, params, GoodEnv(listing))
        == HandleDelete(w.store, w.user, params, GoodEnv(listing));
  }

  lemma CarriedSnapshot(setup: Setup, w: World, node: Node, listing: seq<string>)
    requires Sane(setup, w, Do(Request(SNAPSHOT, node))) && Enumerates(listing, UserIndex(w.store, w.user))
    ensures Carried(setup, w, Do(Request(SNAPSHOT, node)), listing)
  {
    var params := CallFields(Do(Request(SNAPSHOT, node)));
    SnapshotAsPlanned(w, listing);
    assert HandleParams(setup.digest, setup.accounts, w.store, w.user, params, GoodEnv(listing))
        == HandleSnapshot(w.store, w.user, GoodEnv(listing));
  }

  lemma CarriedLogin(setup: Setup, w: World, name: string, pwd: string, listing: seq<string>)
    requires Sane(setup, w, Login(name, pwd)) && Enumerates(listing, UserIndex(w.store, w.user))
    ensures Carried(setup, w, Login(name, pwd), listing)
  {
    var params := CallFields(Login(name, pwd));
    LoginAsPlanned(setup, w, name, pwd, listing);
    assert HandleParams(setup.digest, setup.accounts, w.store, w.user, params, GoodEnv(listing))
        == HandleLogin(setup.digest, setup.accounts, w.store, w.user, params, GoodEnv(listing));
  }

  /** The handler of the server carries out the plan. */
  lemma ServerFollowsPlan(setup: Setup, w: World, call: Call, listing: seq<string>)
    requires Sane(setup, w, call) && Enumerates(listing, UserIndex(w.store, w.user))
    ensures Carried(setup, w, call, listing)
  {
    match call {
      case Login(name, pwd) => CarriedLogin(setup, w, name, pwd, listing);
      case Do(Request(PUT, node)) => CarriedPut(setup, w, node, listing);
      case Do(Request(GET, node)) => CarriedGet(setup, w, node, listing);
      case Do(Request(DELETE, node)) => CarriedDelete(setup, w, node, listing);
      case Do(Request(SNAPSHOT, node)) => CarriedSnapshot(setup, w, node, listing);
    }
  }

  /** An exchange does to the client what the contracts of the driver say of the bytes the server sends. */
  lemma ExchangeAsDriver(setup: Setup, w: World, req: Request, body: Bytes, listing: seq<string>)
    requires Sane(setup, w, Do(req)) && !req.verb.PUT? && Enumerates(listing, UserIndex(w.store, w.user))
    ensures var pl, w1 := PlanOf(setup, w, Do(req), listing), Exchange(setup.digest, w, Do(req), body);
            && FirstHeader(pl.text + pl.rest).Some?
            && Responded(setup.digest, req, true, pl.text + pl.rest, w.mirror, w1.mirror, w.local, w1.local)
  {
    var pl := PlanOf(setup, w, Do(req), listing);
    PlanIsMessage(setup, w, Do(req), listing);
    StreamOfPlan(pl);
    match req.verb {
      case GET => GetAsDriver(setup, w, req.node);
      case DELETE => DeleteAsDriver(setup, w, req.node);
      case SNAPSHOT => SnapshotAsDriver(setup, w, req, listing);
    }
  }

  lemma StreamOfPlan(pl: Plan)
    requires IsMessage(pl.text, pl.params)
    ensures FirstHeader(pl.text + pl.rest) == Some(pl.params) && AfterHeader(pl.text + pl.rest) == pl.rest
  {
    MessageFound(pl.text, pl.params, pl.rest);
    assert (pl.text + pl.rest)[|pl.text|..] == pl.rest;
  }

  lemma DeleteAsDriver(setup: Setup, w: World, node: Node)
    ensures var pl, w1 := PlanDelete(w, node), Delete(w, node);
            Handled(setup.digest, Request(DELETE, node), true, pl.params, pl.rest, w.mirror, w1.mirror, w.local,
                    w1.local)
  {
  }

  lemma {:induction false} GetAsDriver(setup: Setup, w: World, node: Node)
    requires Sane(setup, w, Do(Request(GET, node)))
    ensures var pl, w1 := PlanGet(w, node), Get(setup.digest, w, node);
            Handled(setup.digest, Request(GET, node), true, pl.params, pl.rest, w.mirror, w1.mirror, w.local, w1.local)
  {
    if Served(w, node.AbsolutePath()) {
      var content := w.store.files[FullPath(w.user, node.AbsolutePath())];
      ParseOfToString(|content|, LONG_MIN, LONG_MAX);
      assert ToInt32(|content|) == |content|;
    } else {
      ParseOfToString(FILE_NOT_FOUND, INT_MIN, INT_MAX);
      var params := PlanGet(w, node).params;
      assert OnGetRefused(w.mirror, node, params) == Some(w.mirror - {node.AbsolutePath()});
    }
  }

  lemma {:induction false} SnapshotAsDriver(setup: Setup, w: World, req: Request, listing: seq<string>)
    requires Sane(setup, w, Do(req)) && req.verb.SNAPSHOT? && Enumerates(listing, UserIndex(w.store, w.user))
    ensures var pl, w1 := PlanSnapshot(w, listing), Snapshot(w);
            Handled(setup.digest, req, true, pl.params, pl.rest, w.mirror, w1.mirror, w.local, w1.local)
  {
    var m := UserIndex(w.store, w.user);
    StoiOfToString(|m|);
    StoiOfToString(|Render(listing, m)|);
    CleanRender(listing, m);
    SnapshotMerged(w.mirror, listing, m);
  }
}

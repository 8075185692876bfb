/** server/session.cpp: one session of the server.

    The functions say what each completion handler does; class Session does it step by step, in the
    order of the program, and is proved against them. */
module Sessions {
  import opened Wire
  import opened Numbers
  import opened Option
  import opened Hashing
  import opened Stores
  import opened Protocol

  /** How the file system fares during one handler, how many replies can be written before the client
      is found gone, and the order in which the snapshot is walked. */
  datatype Env = Env(openOk: bool, removeOk: bool, closeOk: bool, writes: nat, listing: seq<string>)

  /** What a handler leaves outstanding. `Aborted`: an exception leaves the handler (a number that
      does not parse, a missing parameter, a removal that fails, a reply to a client that has gone), or
      there is no command word at all to look up. */
  datatype Next =
    | ReadRequest
    | ReadBody(full: string, path: string, remaining: int, hash: string)
    | SendBody(rest: Bytes, remaining: int)
    | Ended
    | Aborted

  datatype Outcome = Outcome(store: Store, user: string, out: seq<Reply>, next: Next)

  /** A reply, and what comes after it; writing it throws when the client has gone. */
  function Answer(st: Store, user: string, reply: Reply, next: Next, env: Env): Outcome {
    if env.writes == 0 then Outcome(st, user, [], Aborted) else Outcome(st, user, [reply], next)
  }

  predicate IsLogged(user: string) { user != "" }

  /** `delete_file`: the index entry goes whether or not there was a file. `None`: the file could not
      be removed, which throws before the entry is touched. */
  function DeleteFile(st: Store, user: string, full: string, path: string, removeOk: bool): Option<(Store, bool)> {
    if full !in st.files then Some((DropHash(st, user, path), false))
    else if removeOk then Some((DropHash(st.(files := st.files - {full}), user, path), true))
    else None
  }

  /** `read_and_save_file` with nothing left to read. */
  function FinishBody(digest: Sha256, st: Store, user: string, full: string, path: string, hash: string,
                      env: Env): Outcome {
    if !env.closeOk then Outcome(st, user, [], ReadRequest)
    else if hash != FileHash(digest, st.files, full) then
      match DeleteFile(st, user, full, path, env.removeOk)
      case None => Outcome(st, user, [], Aborted)
      case Some(d) => Answer(d.0, user, Failed(FILE_HASH_MISMATCH), ReadRequest, env)
    else
      Answer(SaveHash(st, user, path, hash), user, OkayWith(hash), ReadRequest, env)
  }

  /** `read_and_save_file` */
  function ReceiveBody(digest: Sha256, st: Store, user: string, full: string, path: string, len: int, hash: string,
                       env: Env): Outcome {
    if len > 0 then Outcome(st, user, [], ReadBody(full, path, len, hash))
    else FinishBody(digest, st, user, full, path, hash, env)
  }

  /** A write through a handle whose file was removed meanwhile leaves no trace. */
  function AppendTo(files: map<string, Bytes>, full: string, data: Bytes): map<string, Bytes> {
    if full in files then files[full := files[full] + data] else files
  }

  /** Completion of a read of `data` within a body. */
  function OnBody(digest: Sha256, st: Store, user: string, body: Next, data: Bytes, env: Env): Outcome
    requires body.ReadBody?
  {
    ReceiveBody(digest, st.(files := AppendTo(st.files, body.full, data)), user, body.full, body.path,
                body.remaining - |data|, body.hash, env)
  }

  function Chunk(remaining: int): nat
    requires remaining > 0
  {
    if remaining > LEN_BUFF then LEN_BUFF else remaining
  }

  /** `send_file_chunked`: arms the write of the next chunk, or goes back to reading requests. */
  function SendFile(rest: Bytes, remaining: int): Next {
    if remaining > 0 then SendBody(rest, remaining) else ReadRequest
  }

  /** Completion of the write of a chunk. */
  function OnSent(st: Store, user: string, body: Next): Outcome
    requires body.SendBody? && 0 < body.remaining <= |body.rest|
  {
    var n := Chunk(body.remaining);
    Outcome(st, user, [Raw(body.rest[..n])], SendFile(body.rest[n..], body.remaining - n))
  }

  function HandleLogin(digest: Sha256, accounts: map<string, string>, st: Store, user: string, params: seq<string>,
                       env: Env): Outcome {
    if |params| < 3 then Answer(st, user, Failed(WRONG_N_ARGS), Ended, env)
    else if (if params[1] in accounts then accounts[params[1]] else "") == PswSha(digest, params[2]) then
      Answer(st, params[1], OkayWith(""), ReadRequest, env)
    else Answer(st, user, Failed(WRONG_CREDENTIALS), Ended, env)
  }

  function HandleGet(st: Store, user: string, params: seq<string>, env: Env): Outcome {
    if !IsLogged(user) then Answer(st, user, Failed(USER_NOT_LOGGED), Ended, env)
    else if |params| != 2 then Answer(st, user, Failed(WRONG_N_ARGS), Ended, env)
    else
      var full := FullPath(user, params[1]);
      if GetHash(st, user, params[1]) == "" then
        Answer(st, user, Failed(FILE_NOT_FOUND), ReadRequest, env)
      else if full !in st.files then
        Answer(DropHash(st, user, params[1]), user, Failed(FILE_NOT_FOUND), ReadRequest, env)
      else if !env.openOk then
        Answer(st, user, Failed(FILE_OPEN_ERROR), Ended, env)
      else
        var len := ToInt32(|st.files[full]|);
        Answer(st, user, OkayWith(ToString(len)), SendFile(st.files[full], len), env)
  }

  /** The part of PUT that starts a file afresh: open, say OK, read the body. */
  function StartBody(digest: Sha256, st: Store, user: string, full: string, path: string, len: int, hash: string,
                     env: Env): Outcome {
    var st1 := st.(files := st.files[full := ""]);
    if env.writes == 0 then Outcome(st1, user, [], Aborted)
    else
      var o := ReceiveBody(digest, st1, user, full, path, ToInt32(len), hash, env.(writes := env.writes - 1));
      o.(out := [Okay] + o.out)
  }

  /** Unlike on a path that had no file, the session survives a failed open here. */
  function Reopen(digest: Sha256, st: Store, user: string, full: string, path: string, len: int, hash: string,
                  env: Env): Outcome {
    if !env.openOk then Answer(st, user, Failed(FILE_CREATE_ERROR), ReadRequest, env)
    else StartBody(digest, st, user, full, path, len, hash, env)
  }

  function Replace(digest: Sha256, st: Store, user: string, full: string, path: string, len: int, hash: string,
                   env: Env): Outcome {
    match DeleteFile(st, user, full, path, env.removeOk)
    case None => Outcome(st, user, [], Aborted)
    case Some((st1, true)) => Reopen(digest, st1, user, full, path, len, hash, env)
    case Some((st1, false)) => Answer(st1, user, Failed(FILE_DELETE_ERROR), ReadRequest, env)
  }

  /** PUT of a path at which there is a file. */
  function PutOver(digest: Sha256, st: Store, user: string, full: string, path: string, len: int, hash: string,
                   env: Env): Outcome {
    if hash == FileHash(digest, st.files, full) then
      Answer(st, user, Failed(FILE_ALREADY_EXISTS), ReadRequest, env)
    else
      Replace(digest, st, user, full, path, len, hash, env)
  }

  function HandlePut(digest: Sha256, st: Store, user: string, params: seq<string>, env: Env): Outcome {
    if !IsLogged(user) then Answer(st, user, Failed(USER_NOT_LOGGED), Ended, env)
    else if |params| < 4 then Answer(st, user, Failed(WRONG_N_ARGS), Ended, env)
    else if Stol(params[2]).None? || Stoi(params[3]).None? || |params| < 5 then Outcome(st, user, [], Aborted)
    else
      var path, len, hash := params[1], Stol(params[2]).value, params[4];
      var full := FullPath(user, path);
      if full in st.files then PutOver(digest, st, user, full, path, len, hash, env)
      else if !env.openOk then Answer(st, user, Failed(FILE_CREATE_ERROR), Ended, env)
      else StartBody(digest, st, user, full, path, len, hash, env)
  }

  function Line(path: string, hash: string): Bytes {
    path + PARAM_DELIMITER + hash + REQUEST_DELIMITER
  }

  /** The snapshot lines in the order of `listing`. */
  function Render(listing: seq<string>, m: Index): Bytes
    requires forall k :: k in listing ==> k in m
  {
    if |listing| == 0 then ""
    else Render(listing[..|listing| - 1], m) + Line(listing[|listing| - 1], m[listing[|listing| - 1]])
  }

  /** The number of entries and the length of what follows. */
  function SnapshotHeader(entries: nat, length: nat): Reply {
    OkayWithTwo(ToString(entries), ToString(ToInt32(length)))
  }

  /** The environment walks the snapshot of `user` as it is. */
  ghost predicate Walks(env: Env, st: Store, user: string) {
    Enumerates(env.listing, UserIndex(st, user))
  }

  /** The two writes are inside a `try`; what catches the first exception writes a reply itself. */
  ghost function HandleSnapshot(st: Store, user: string, env: Env): Outcome
    requires Walks(env, st, user)
  {
    if !IsLogged(user) then Answer(st, user, Failed(USER_NOT_LOGGED), Ended, env)
    else
      var m := UserIndex(st, user);
      var payload := Render(env.listing, m);
      var header := SnapshotHeader(|m|, |payload|);
      if env.writes == 0 then Outcome(st, user, [], Aborted)
      else if env.writes == 1 then Outcome(st, user, [header], Aborted)
      else Outcome(st, user, [header, Raw(payload)], ReadRequest)
  }

  function HandleDelete(st: Store, user: string, params: seq<string>, env: Env): Outcome {
    if !IsLogged(user) then Answer(st, user, Failed(USER_NOT_LOGGED), Ended, env)
    else if |params| < 2 then Outcome(st, user, [], Aborted)
    else
      match DeleteFile(st, user, FullPath(user, params[1]), params[1], env.removeOk)
      case None => Outcome(st, user, [], Aborted)
      case Some((st1, true)) => Answer(st1, user, OkayWith(ToString(1)), ReadRequest, env)
      case Some((st1, false)) => Answer(st1, user, Failed(FILE_DELETE_ERROR), ReadRequest, env)
  }

  datatype Action = LoginAction | GetAction | PutAction | PatchAction | SnapshotAction | DeleteAction

  /** The table `commands`. */
  function ActionOf(word: string): Option<Action> {
    if word == "LOGIN" then Some(LoginAction)
    else if word == "GET" then Some(GetAction)
    else if word == "PUT" then Some(PutAction)
    else if word == "PATCH" then Some(PatchAction)
    else if word == "SNAPSHOT" then Some(SnapshotAction)
    else if word == "DELETE" then Some(DeleteAction)
    else None
  }

  function HandlePatch(st: Store, user: string, env: Env): Outcome {
    if IsLogged(user) then Outcome(st, user, [], ReadRequest)
    else Answer(st, user, Failed(USER_NOT_LOGGED), Ended, env)
  }

  ghost function HandleParams(digest: Sha256, accounts: map<string, string>, st: Store, user: string,
                              params: seq<string>, env: Env): Outcome
    requires Walks(env, st, user)
  {
    if |params| == 0 then Outcome(st, user, [], Aborted)
    else match ActionOf(params[0])
    case None => Answer(st, user, Failed(UNKNOWN_COMMAND), Ended, env)
    case Some(LoginAction) => HandleLogin(digest, accounts, st, user, params, env)
    case Some(GetAction) => HandleGet(st, user, params, env)
    case Some(PutAction) => HandlePut(digest, st, user, params, env)
    case Some(PatchAction) => HandlePatch(st, user, env)
    case Some(SnapshotAction) => HandleSnapshot(st, user, env)
    case Some(DeleteAction) => HandleDelete(st, user, params, env)
  }

  /** `handle_request` */
  ghost function HandleRequest(digest: Sha256, accounts: map<string, string>, st: Store, user: string, request: Bytes,
                               env: Env): Outcome
    requires Walks(env, st, user)
  {
    HandleParams(digest, accounts, st, user, Params(request), env)
  }

  /** A body is started with a reply, and then received. */
  lemma StartsThenReceives(digest: Sha256, st: Store, user: string, full: string, path: string, len: int, hash: string,
                           env: Env, sent: seq<Reply>)
    requires env.writes > 0
    ensures var o1 := StartBody(digest, st, user, full, path, len, hash, env);
            var st1, rest := st.(files := st.files[full := ""]), env.(writes := env.writes - 1);
            var o := ReceiveBody(digest, st1, user, full, path, ToInt32(len), hash, rest);
            o1 == o.(out := o1.out) && sent + [Okay] + o.out == sent + o1.out
  {
  }

  lemma RenderStep(listing: seq<string>, m: Index, i: nat)
    requires i < |listing| && forall k :: k in listing ==> k in m
    ensures Render(listing[..i + 1], m) == Render(listing[..i], m) + Line(listing[i], m[listing[i]])
  {
    assert listing[..i + 1][..i] == listing[..i];
  }

  function Concat(lines: seq<Bytes>): Bytes {
    if |lines| == 0 then "" else Concat(lines[..|lines| - 1]) + lines[|lines| - 1]
  }

  /** The first loop of SNAPSHOT: the lines, and the length announced for them. */
  method SnapshotLines(listing: seq<string>, files: Index) returns (lines: seq<Bytes>, total: nat)
    requires forall k :: k in listing ==> k in files
    ensures Concat(lines) == Render(listing, files) && total == |Render(listing, files)|
    ensures forall l :: l in lines ==> |l| > 1
  {
    lines, total := [], 0;
    for i := 0 to |listing|
      invariant Concat(lines) == Render(listing[..i], files)
      invariant total == |Concat(lines)| && forall l :: l in lines ==> |l| > 1
    {
      var line := listing[i];
      line := line + PARAM_DELIMITER;
      line := line + files[listing[i]];
      line := line + REQUEST_DELIMITER;
      RenderStep(listing, files, i);
      total := total + |line|;
      assert (lines + [line])[..|lines|] == lines;
      lines := lines + [line];
    }
    assert listing[..|listing|] == listing;
  }

  /** The second loop of SNAPSHOT. */
  method Payload(lines: seq<Bytes>) returns (oss: Bytes)
    requires forall l :: l in lines ==> |l| > 1
    ensures oss == Concat(lines)
  {
    oss := "";
    for i := 0 to |lines|
      invariant oss == Concat(lines[..i])
    {
      assert lines[..i + 1][..i] == lines[..i];
      if |lines[i]| > 1 {
        oss := oss + lines[i];
      }
    }
    assert lines[..|lines|] == lines;
  }

  class Session {
    const digest: Sha256
    const accounts: map<string, string>
    const db: Db
    const disk: Disk
    var user: string
    var inputBuffer: Bytes
    var outfile: Option<string>
    var infile: Bytes
    /** The asynchronous operations started and not yet completed. */
    var armed: seq<Next>
    /** Everything written to the socket; its bytes are `EncodeAll(sent)`. */
    var sent: seq<Reply>
    /** How many more synchronous writes the connection takes before the client is found gone. */
    var writable: nat

    ghost function View(): Store
      reads disk, db
    {
      Store(disk.files, db.index)
    }

    /** At most one operation is outstanding, and the stream it uses is open on its file, and no other. */
    ghost predicate Valid()
      reads this
    {
      && |armed| <= 1
      && (|armed| == 1 ==>
            && (armed[0].ReadRequest? || armed[0].ReadBody? || armed[0].SendBody?)
            && (armed[0].ReadRequest? ==> outfile.None? && infile == "")
            && (armed[0].ReadBody? ==> armed[0].remaining > 0 && outfile == Some(armed[0].full) && infile == "")
            && (armed[0].SendBody? ==>
                  0 < armed[0].remaining <= |armed[0].rest| && outfile.None? && infile == armed[0].rest))
    }

    /** A request is being handled: nothing is outstanding and no stream is open. */
    ghost predicate Handling()
      reads this
    {
      armed == [] && outfile.None? && infile == ""
    }

    /** The session is as the outcome of a handler says, and exactly the operation it names is
        outstanding; none, if the session ends. */
    twostate predicate Follows(o: Outcome)
      reads this, disk, db
    {
      && View() == o.store && user == o.user && sent == old(sent) + o.out
      && armed == (if o.next.Ended? || o.next.Aborted? then [] else [o.next])
      && Valid()
    }

    constructor (digest: Sha256, accounts: map<string, string>, db: Db, disk: Disk)
      ensures this.digest == digest && this.accounts == accounts && this.db == db && this.disk == disk
      ensures user == "" && sent == [] && Valid() && armed == [ReadRequest]
    {
      this.digest, this.accounts, this.db, this.disk := digest, accounts, db, disk;
      user, outfile, infile, sent, armed, writable := "", None, "", [], [], 0;
      new;
      StartReadRequest();
    }

    /** `read_request` */
    method StartReadRequest()
      modifies this
      ensures armed == old(armed) + [ReadRequest] && inputBuffer == ""
      ensures unchanged(`user) && unchanged(`sent) && unchanged(`outfile) && unchanged(`infile) && unchanged(`writable)
    {
      inputBuffer := "";
      armed := armed + [ReadRequest];
    }

    /** `write_str_sync`: throws when the client has gone. */
    method Write(reply: Reply) returns (thrown: bool)
      modifies this`sent, this`writable
      ensures thrown <==> old(writable) == 0
      ensures sent == (if thrown then old(sent) else old(sent) + [reply])
      ensures writable == if thrown then 0 else old(writable) - 1
    {
      if writable == 0 {
        return true;
      }
      writable := writable - 1;
      sent := sent + [reply];
      thrown := false;
    }

    /** A reply, after which the next request is awaited or the session left to end. */
    method Respond(reply: Reply, parks: bool) returns (aborted: bool)
      requires Handling()
      modifies this
      ensures unchanged(`user)
      ensures sent == old(sent) + (if aborted then [] else [reply]) && (aborted <==> old(writable) == 0)
      ensures armed == (if !aborted && parks then [ReadRequest] else []) && Valid()
    {
      aborted := Write(reply);
      if !aborted && parks {
        StartReadRequest();
      }
    }

    /** `delete_file` */
    method RemoveFile(full: string, path: string, removeOk: bool) returns (thrown: bool, gone: bool)
      modifies disk, db
      ensures match DeleteFile(old(View()), user, full, path, removeOk)
              case None => thrown && View() == old(View())
              case Some(d) => !thrown && View() == d.0 && gone == d.1
    {
      thrown, gone := false, false;
      if full in disk.files {
        if !removeOk {
          return true, false;
        }
        disk.files := disk.files - {full};
        gone := true;
      }
      var _ := db.DeleteFileFromSnapshot(user, path);
    }

    /** `login` */
    method Login(name: string, pwd: string) returns (res: bool)
      modifies this`user
      ensures res <==> name in accounts && accounts[name] == Sha(digest, pwd + "pdsproject201920")
      ensures user == if res then name else old(user)
    {
      var saved := if name in accounts then accounts[name] else "";
      if saved == PswSha(digest, pwd) {
        user := name;
        return true;
      }
      return false;
    }

    /** `read_and_save_file` */
    method ReadAndSaveFile(full: string, path: string, len: int, hash: string, env: Env) returns (aborted: bool)
      requires armed == [] && outfile == Some(full) && infile == "" && env.writes == writable
      modifies this, disk, db
      ensures var o := ReceiveBody(digest, old(View()), old(user), full, path, len, hash, env);
              Follows(o) && (aborted <==> o.next.Aborted?)
    {
      aborted := false;
      if len > 0 {
        armed := armed + [ReadBody(full, path, len, hash)];
      } else {
        outfile := None;
        if !env.closeOk {
          StartReadRequest();
          return;
        }
        var actual := GetSha(digest, if full in disk.files then disk.files[full] else "");
        if hash != actual {
          var gone;
          aborted, gone := RemoveFile(full, path, env.removeOk);
          if aborted {
            return;
          }
          aborted := Write(Failed(FILE_HASH_MISMATCH));
        } else {
          db.SaveUserFileHash(user, path, actual);
          aborted := Write(OkayWith(actual));
        }
        if aborted {
          return;
        }
        StartReadRequest();
      }
    }

    /** The completion handler of the read in `read_and_save_file`. */
    method OnBodyRead(data: Bytes, env: Env) returns (aborted: bool)
      requires Valid() && |armed| == 1 && armed[0].ReadBody?
      requires 0 < |data| <= Chunk(armed[0].remaining)
      modifies this, disk, db
      ensures var o := OnBody(digest, old(View()), old(user), old(armed[0]), data, env);
              Follows(o) && (aborted <==> o.next.Aborted?)
    {
      writable := env.writes;
      var op := armed[0];
      armed := [];
      if op.full in disk.files {
        disk.files := disk.files[op.full := disk.files[op.full] + data];
      }
      aborted := ReadAndSaveFile(op.full, op.path, op.remaining - |data|, op.hash, env);
    }

    /** `send_file_chunked` */
    method SendFileChunked(len: int)
      requires armed == [] && outfile.None? && len <= |infile|
      modifies this
      ensures Follows(Outcome(old(View()), old(user), [], SendFile(old(infile), len)))
    {
      if len > 0 {
        armed := armed + [SendBody(infile, len)];
      } else {
        infile := "";
        StartReadRequest();
      }
    }

    /** The completion handler of the write in `send_file_chunked`. */
    method OnChunkSent()
      requires Valid() && |armed| == 1 && armed[0].SendBody?
      modifies this
      ensures Follows(OnSent(old(View()), old(user), old(armed[0])))
    {
      var op := armed[0];
      armed := [];
      var length := if op.remaining > LEN_BUFF then LEN_BUFF else op.remaining;
      sent := sent + [Raw(infile[..length])];
      infile := infile[length..];
      SendFileChunked(op.remaining - length);
    }

    /** A failed read or write: nothing is armed again, the session goes away. */
    method OnError()
      requires Valid() && |armed| == 1
      modifies this
      ensures Follows(Outcome(old(View()), old(user), [], Ended))
    {
      armed := [];
    }

    /** The completion handler of `read_request`; `buffer` may run past the delimiter. */
    method OnRequestRead(buffer: Bytes, openOk: bool, removeOk: bool, closeOk: bool, writes: nat)
      returns (aborted: bool, ghost env: Env)
      requires Valid() && armed == [ReadRequest] && !Free(buffer, REQUEST_DELIMITER)
      modifies this, disk, db
      ensures env == Env(openOk, removeOk, closeOk, writes, env.listing)
      ensures Walks(env, old(View()), old(user))
      ensures var o := HandleRequest(digest, accounts, old(View()), old(user),
                                     buffer[..Find(buffer, REQUEST_DELIMITER)], env);
              Follows(o) && (aborted <==> o.next.Aborted?)
    {
      armed := [];
      writable := writes;
      inputBuffer := buffer;
      aborted, env := Dispatch(inputBuffer[..Find(buffer, REQUEST_DELIMITER)], openOk, removeOk, closeOk, writes);
    }

    /** `handle_request` */
    method Dispatch(request: Bytes, openOk: bool, removeOk: bool, closeOk: bool, writes: nat)
      returns (aborted: bool, ghost env: Env)
      requires Handling() && writes == writable
      modifies this, disk, db
      ensures env == Env(openOk, removeOk, closeOk, writes, env.listing)
      ensures Walks(env, old(View()), old(user))
      ensures var o := HandleRequest(digest, accounts, old(View()), old(user), request, env);
              Follows(o) && (aborted <==> o.next.Aborted?)
    {
      var listing := Enumerate(if user in db.index then db.index[user] else map[]);
      var e := Env(openOk, removeOk, closeOk, writes, listing);
      env := e;
      var params := ExtractParams(request);
      if |params| == 0 {
        return true, env;
      }
      aborted := Act(ActionOf(params[0]), params, e);
    }

    method Act(action: Option<Action>, params: seq<string>, env: Env) returns (aborted: bool)
      requires Handling() && env.writes == writable && |params| > 0 && action == ActionOf(params[0])
      requires Walks(env, View(), user)
      modifies this, disk, db
      ensures var o := HandleParams(digest, accounts, old(View()), old(user), params, env);
              Follows(o) && (aborted <==> o.next.Aborted?)
    {
      match action {
        case None => aborted := Respond(Failed(UNKNOWN_COMMAND), false);
        case Some(LoginAction) => aborted := TryLogin(params, env);
        case Some(GetAction) => aborted := Get(params, env);
        case Some(PutAction) => aborted := Put(params, env);
        case Some(PatchAction) => aborted := Patch(env);
        case Some(SnapshotAction) => aborted := SendSnapshot(env);
        case Some(DeleteAction) => aborted := Delete(params, env);
      }
    }

    method TryLogin(params: seq<string>, env: Env) returns (aborted: bool)
      requires Handling() && env.writes == writable
      modifies this
      ensures var o := HandleLogin(digest, accounts, old(View()), old(user), params, env);
              Follows(o) && (aborted <==> o.next.Aborted?)
    {
      if |params| < 3 {
        aborted := Respond(Failed(WRONG_N_ARGS), false);
        return;
      }
      var res := Login(params[1], params[2]);
      if res {
        aborted := Respond(OkayWith(""), true);
      } else {
        aborted := Respond(Failed(WRONG_CREDENTIALS), false);
      }
    }

    method Patch(env: Env) returns (aborted: bool)
      requires Handling() && env.writes == writable
      modifies this
      ensures var o := HandlePatch(old(View()), old(user), env);
              Follows(o) && (aborted <==> o.next.Aborted?)
    {
      aborted := false;
      if !IsLogged(user) {
        aborted := Respond(Failed(USER_NOT_LOGGED), false);
        return;
      }
      StartReadRequest();
    }

    method Get(params: seq<string>, env: Env) returns (aborted: bool)
      requires Handling() && env.writes == writable
      modifies this, disk, db
      ensures var o := HandleGet(old(View()), old(user), params, env);
              Follows(o) && (aborted <==> o.next.Aborted?)
    {
      aborted := false;
      if !IsLogged(user) {
        aborted := Respond(Failed(USER_NOT_LOGGED), false);
        return;
      }
      if |params| != 2 {
        aborted := Respond(Failed(WRONG_N_ARGS), false);
        return;
      }
      var path := params[1];
      var full := FullPath(user, path);
      var indexed := db.GetUserFileHash(user, path);
      assert indexed == GetHash(Store(disk.files, db.index), user, path);
      if indexed != "" {
        if full in disk.files {
          if !env.openOk {
            aborted := Respond(Failed(FILE_OPEN_ERROR), false);
            return;
          }
          infile := disk.files[full];
          var len := ToInt32(|infile|);
          aborted := Write(OkayWith(ToString(len)));
          if aborted {
            return;
          }
          SendFileChunked(len);
        } else {
          var _ := db.DeleteFileFromSnapshot(user, path);
          aborted := Respond(Failed(FILE_NOT_FOUND), true);
        }
      } else {
        aborted := Respond(Failed(FILE_NOT_FOUND), true);
      }
    }

    method Put(params: seq<string>, env: Env) returns (aborted: bool)
      requires Handling() && env.writes == writable
      modifies this, disk, db
      ensures var o := HandlePut(digest, old(View()), old(user), params, env);
              Follows(o) && (aborted <==> o.next.Aborted?)
    {
      aborted := false;
      if !IsLogged(user) {
        aborted := Respond(Failed(USER_NOT_LOGGED), false);
        return;
      }
      if |params| < 4 {
        aborted := Respond(Failed(WRONG_N_ARGS), false);
        return;
      }
      var path := params[1];
      var full := FullPath(user, path);
      var len := Stol(params[2]);
      if len.None? { return true; }
      var time := Stoi(params[3]);
      if time.None? { return true; }
      if |params| < 5 { return true; }
      var hash := params[4];
      if full !in disk.files {
        if !env.openOk {
          aborted := Respond(Failed(FILE_CREATE_ERROR), false);
          return;
        }
        aborted := Start(full, path, len.value, hash, env);
      } else {
        aborted := Over(full, path, len.value, hash, env);
      }
    }

    method Start(full: string, path: string, len: int, hash: string, env: Env) returns (aborted: bool)
      requires Handling() && env.writes == writable
      modifies this, disk, db
      ensures var o := StartBody(digest, old(View()), old(user), full, path, len, hash, env);
              Follows(o) && (aborted <==> o.next.Aborted?)
    {
      disk.files := disk.files[full := ""];
      outfile := Some(full);
      aborted := Write(Okay);
      if aborted {
        return;
      }
      var rest := env.(writes := env.writes - 1);
      aborted := ReadAndSaveFile(full, path, ToInt32(len), hash, rest);
      StartsThenReceives(digest, old(View()), user, full, path, len, hash, env, old(sent));
    }

    method Restart(full: string, path: string, len: int, hash: string, env: Env) returns (aborted: bool)
      requires Handling() && env.writes == writable
      modifies this, disk, db
      ensures var o := Reopen(digest, old(View()), old(user), full, path, len, hash, env);
              Follows(o) && (aborted <==> o.next.Aborted?)
    {
      if !env.openOk {
        aborted := Respond(Failed(FILE_CREATE_ERROR), true);
        return;
      }
      aborted := Start(full, path, len, hash, env);
    }

    method DeleteAndRestart(full: string, path: string, len: int, hash: string, env: Env) returns (aborted: bool)
      requires Handling() && env.writes == writable
      modifies this, disk, db
      ensures var o := Replace(digest, old(View()), old(user), full, path, len, hash, env);
              Follows(o) && (aborted <==> o.next.Aborted?)
    {
      var check;
      aborted, check := RemoveFile(full, path, env.removeOk);
      if aborted {
        return;
      }
      if check {
        aborted := Restart(full, path, len, hash, env);
      } else {
        aborted := Respond(Failed(FILE_DELETE_ERROR), true);
      }
    }

    method Over(full: string, path: string, len: int, hash: string, env: Env) returns (aborted: bool)
      requires Handling() && env.writes == writable && full in disk.files
      modifies this, disk, db
      ensures var o := PutOver(digest, old(View()), old(user), full, path, len, hash, env);
              Follows(o) && (aborted <==> o.next.Aborted?)
    {
      aborted := false;
      var actual := GetSha(digest, disk.files[full]);
      if hash == actual {
        aborted := Respond(Failed(FILE_ALREADY_EXISTS), true);
      } else {
        aborted := DeleteAndRestart(full, path, len, hash, env);
      }
    }

    method SendSnapshot(env: Env) returns (aborted: bool)
      requires Handling() && env.writes == writable && Walks(env, View(), user)
      modifies this
      ensures var o := HandleSnapshot(old(View()), old(user), env);
              Follows(o) && (aborted <==> o.next.Aborted?)
    {
      aborted := false;
      if !IsLogged(user) {
        aborted := Respond(Failed(USER_NOT_LOGGED), false);
        return;
      }
      var files := db.GetUserSnapshot(user);
      var thrown := WriteSnapshot(env.listing, files);
      if thrown {
        aborted := Write(Failed(UNKNOWN_ERROR));
        if aborted {
          return;
        }
      }
      StartReadRequest();
    }

    method WriteSnapshot(listing: seq<string>, files: Index) returns (thrown: bool)
      requires forall k :: k in listing ==> k in files
      modifies this`sent, this`writable
      ensures thrown <==> old(writable) < 2
      ensures thrown ==> writable == 0
      ensures var header, payload := SnapshotHeader(|files|, |Render(listing, files)|), Raw(Render(listing, files));
              sent
                == old(sent)
                  + (if old(writable) == 0 then [] else if old(writable) == 1 then [header] else [header, payload])
    {
      var lines, total := SnapshotLines(listing, files);
      var header := SnapshotHeader(|files|, total);
      thrown := Write(header);
      if thrown {
        return;
      }
      var payload := Payload(lines);
      thrown := Write(Raw(payload));
    }

    method Delete(params: seq<string>, env: Env) returns (aborted: bool)
      requires Handling() && env.writes == writable
      modifies this, disk, db
      ensures var o := HandleDelete(old(View()), old(user), params, env);
              Follows(o) && (aborted <==> o.next.Aborted?)
    {
      aborted := false;
      if !IsLogged(user) {
        aborted := Respond(Failed(USER_NOT_LOGGED), false);
        return;
      }
      if |params| < 2 { return true; }
      var check;
      aborted, check := RemoveFile(FullPath(user, params[1]), params[1], env.removeOk);
      if aborted {
        return;
      }
      if check {
        aborted := Respond(OkayWith(ToString(1)), true);
      } else {
        aborted := Respond(Failed(FILE_DELETE_ERROR), true);
      }
    }
  }
}

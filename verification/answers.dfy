/** What each request is answered with, letter by letter, and what it leaves: the handlers of
    server/session.cpp against the codes of shared/const.h, said without the functions that model them. */
module Answers {
  import opened Wire
  import opened Numbers
  import opened Option
  import opened Hashing
  import opened Nodes
  import opened Stores
  import opened Protocol
  import opened Sessions
  import opened Clients

  function Text(o: Outcome): Bytes { EncodeAll(o.out) }

  lemma TwoFields(a: Bytes, b: Bytes)
    ensures Message([a, b]) == a + "##" + b + "\r\n"
  {
    assert [a, b][1..] == [b];
    assert Join([b], PARAM_DELIMITER) == b;
  }

  lemma ThreeFields(a: Bytes, b: Bytes, c: Bytes)
    ensures Message([a, b, c]) == a + "##" + b + "##" + c + "\r\n"
  {
    assert [a, b, c][1..] == [b, c] && [b, c][1..] == [c];
    assert Join([c], PARAM_DELIMITER) == c;
    assert Join([b, c], PARAM_DELIMITER) == b + "##" + c;
    assert a + "##" + (b + "##" + c) == a + "##" + b + "##" + c;
  }

  lemma OneReply(r: Reply)
    ensures EncodeAll([r]) == Encode(r)
  {
    assert [r][..0] == [];
  }

  lemma ErrorText(code: int)
    ensures EncodeAll([Failed(code)]) == "ERROR##" + ToString(code) + "\r\n"
  {
    OneReply(Failed(code));
    TwoFields("ERROR", ToString(code));
    assert "ERROR" + "##" == "ERROR##";
  }

  lemma ErrorTexts()
    ensures EncodeAll([Failed(WRONG_CREDENTIALS)]) == "ERROR##1\r\n"
    ensures EncodeAll([Failed(UNKNOWN_COMMAND)]) == "ERROR##2\r\n"
    ensures EncodeAll([Failed(WRONG_N_ARGS)]) == "ERROR##3\r\n"
    ensures EncodeAll([Failed(FILE_CREATE_ERROR)]) == "ERROR##6\r\n"
    ensures EncodeAll([Failed(FILE_HASH_MISMATCH)]) == "ERROR##7\r\n"
    ensures EncodeAll([Failed(FILE_ALREADY_EXISTS)]) == "ERROR##8\r\n"
    ensures EncodeAll([Failed(FILE_DELETE_ERROR)]) == "ERROR##9\r\n"
  {
    ErrorText(1);
    ErrorText(2);
    ErrorText(3);
    ErrorText(6);
    ErrorText(7);
    ErrorText(8);
    ErrorText(9);
  }

  lemma MoreErrorTexts()
    ensures EncodeAll([Failed(FILE_NOT_FOUND)]) == "ERROR##10\r\n"
    ensures EncodeAll([Failed(FILE_OPEN_ERROR)]) == "ERROR##11\r\n"
    ensures EncodeAll([Failed(USER_NOT_LOGGED)]) == "ERROR##12\r\n"
  {
    assert NatToString(1) == "1";
    assert NatToString(10) == "10" && NatToString(11) == "11" && NatToString(12) == "12";
    ErrorText(10);
    ErrorText(11);
    ErrorText(12);
  }

  lemma OkayTexts(p: Bytes, q: Bytes)
    ensures EncodeAll([Okay]) == "OK\r\n"
    ensures EncodeAll([OkayWith(p)]) == "OK##" + p + "\r\n"
    ensures EncodeAll([OkayWithTwo(p, q)]) == "OK##" + p + "##" + q + "\r\n"
  {
    OneReply(Okay);
    OneReply(OkayWith(p));
    OneReply(OkayWithTwo(p, q));
    TwoFields("OK", p);
    ThreeFields("OK", p, q);
    assert "OK" + "##" == "OK##";
  }

  lemma LoginOutcome(digest: Sha256, accounts: map<string, string>, st: Store, user: string, params: seq<string>,
                     env: Env)
    requires env.writes >= 1
    ensures HandleLogin(digest, accounts, st, user, params, env)
            == if |params| < 3 then Outcome(st, user, [Failed(WRONG_N_ARGS)], Ended)
               else if params[1] in accounts && accounts[params[1]] == Sha(digest, params[2] + SALT) then
                 Outcome(st, params[1], [OkayWith("")], ReadRequest)
               else Outcome(st, user, [Failed(WRONG_CREDENTIALS)], Ended)
  {
    if |params| >= 3 { assert |Sha(digest, params[2] + SALT)| == 64; }
  }

  /** A LOGIN with the right password is answered OK and sets the user; any other is answered with its
      code, and ends the session. */
  lemma LoginAnswers(digest: Sha256, accounts: map<string, string>, st: Store, user: string, params: seq<string>,
                     env: Env)
    requires env.writes >= 1
    ensures var o := HandleLogin(digest, accounts, st, user, params, env);
            && o.store == st
            && if |params| < 3 then Text(o) == "ERROR##3\r\n" && o.next == Ended && o.user == user
               else if params[1] in accounts && accounts[params[1]] == Sha(digest, params[2] + "pdsproject201920") then
                 Text(o) == "OK##\r\n" && o.next == ReadRequest && o.user == params[1]
               else Text(o) == "ERROR##1\r\n" && o.next == Ended && o.user == user
  {
    ErrorText(3);
    ErrorText(1);
    OkayTexts("", "");
    LoginOutcome(digest, accounts, st, user, params, env);
  }

  lemma GetAnswers(st: Store, user: string, params: seq<string>, env: Env)
    requires env.writes >= 1
    ensures var o := HandleGet(st, user, params, env);
            && o.user == user && o.store.files == st.files
            && if user == "" then Text(o) == "ERROR##12\r\n" && o.next == Ended && o.store == st
               else if |params| != 2 then Text(o) == "ERROR##3\r\n" && o.next == Ended && o.store == st
               else
                 var path, full := params[1], "../data/" + user + params[1];
                 var index := UserIndex(st, user);
                 if path !in index || index[path] == "" then
                   Text(o) == "ERROR##10\r\n" && o.next == ReadRequest && o.store == st
                 else if full !in st.files then
                   Text(o) == "ERROR##10\r\n" && o.next == ReadRequest && UserIndex(o.store, user) == index - {path}
                 else if !env.openOk then Text(o) == "ERROR##11\r\n" && o.next == Ended && o.store == st
                 else GetSends(o, st, st.files[full])
  {
    ErrorTexts();
    MoreErrorTexts();
    if user != "" && |params| == 2 && "../data/" + user + params[1] in st.files {
      var len := ToInt32(|st.files["../data/" + user + params[1]]|);
      OkayTexts(ToString(len), "");
    }
  }

  /** The length, and the file to follow. */
  predicate GetSends(o: Outcome, st: Store, content: Bytes) {
    var len := ToInt32(|content|);
    && o.store == st && Text(o) == "OK##" + ToString(len) + "\r\n"
    && o.next == if len > 0 then SendBody(content, len) else ReadRequest
  }

  lemma DeleteAnswers(st: Store, user: string, params: seq<string>, env: Env)
    requires env.writes >= 1 && env.removeOk
    ensures var o := HandleDelete(st, user, params, env);
            && o.user == user
            && if user == "" then Text(o) == "ERROR##12\r\n" && o.next == Ended && o.store == st
               else if |params| < 2 then o.out == [] && o.next == Aborted && o.store == st
               else
                 var path, full := params[1], "../data/" + user + params[1];
                 && o.next == ReadRequest && UserIndex(o.store, user) == UserIndex(st, user) - {path}
                 && o.store.files == st.files - {full}
                 && Text(o) == if full in st.files then "OK##1\r\n" else "ERROR##9\r\n"
  {
    ErrorText(9);
    MoreErrorTexts();
    OkayTexts(ToString(1), "");
    var o := HandleDelete(st, user, params, env);
    if user == "" {
      assert o.out == [Failed(USER_NOT_LOGGED)];
    } else if |params| >= 2 {
      var full := "../data/" + user + params[1];
      if full in st.files {
        assert o.out == [OkayWith(ToString(1))];
      } else {
        assert o.out == [Failed(FILE_DELETE_ERROR)] && st.files - {full} == st.files;
      }
    }
  }

  /** A PUT up to the point where its body is to be read. */
  lemma PutAnswers(digest: Sha256, st: Store, user: string, params: seq<string>, env: Env)
    requires env.writes >= 1 && env.removeOk
    ensures var o := HandlePut(digest, st, user, params, env);
            && o.user == user
            && if user == "" then Text(o) == "ERROR##12\r\n" && o.next == Ended && o.store == st
               else if |params| < 4 then Text(o) == "ERROR##3\r\n" && o.next == Ended && o.store == st
               else if |params| < 5 || Stol(params[2]).None? || Stoi(params[3]).None? then
                 o.out == [] && o.next == Aborted && o.store == st
               else PutAnswered(digest, st, user, params[1], Stol(params[2]).value, params[4], env, o)
  {
    ErrorTexts();
    MoreErrorTexts();
    if user != "" && |params| >= 5 && Stol(params[2]).Some? && Stoi(params[3]).Some? {
      PutStarts(digest, st, user, params, env);
    }
  }

  ghost predicate PutAnswered(digest: Sha256, st: Store, user: string, path: string, len: int, hash: string, env: Env,
                              o: Outcome) {
    var full := "../data/" + user + path;
    if full in st.files && hash == Sha(digest, st.files[full]) then
      Text(o) == "ERROR##8\r\n" && o.next == ReadRequest && o.store == st
    else if !env.openOk then
      if full in st.files then
        && Text(o) == "ERROR##6\r\n" && o.next == ReadRequest
        && o.store.files == st.files - {full} && UserIndex(o.store, user) == UserIndex(st, user) - {path}
      else Text(o) == "ERROR##6\r\n" && o.next == Ended && o.store == st
    else if ToInt32(len) > 0 then
      && Text(o) == "OK\r\n" && o.next == ReadBody(full, path, ToInt32(len), hash)
      && o.store.files == st.files[full := ""]
      && UserIndex(o.store, user) == if full in st.files then UserIndex(st, user) - {path} else UserIndex(st, user)
    else |o.out| >= 1 && o.out[0] == Okay
  }

  lemma PutStarts(digest: Sha256, st: Store, user: string, params: seq<string>, env: Env)
    requires env.writes >= 1 && env.removeOk && user != ""
    requires |params| >= 5 && Stol(params[2]).Some? && Stoi(params[3]).Some?
    ensures var o := HandlePut(digest, st, user, params, env);
            o.user == user && PutAnswered(digest, st, user, params[1], Stol(params[2]).value, params[4], env, o)
  {
    var path, len, hash := params[1], Stol(params[2]).value, params[4];
    if FullPath(user, path) in st.files {
      PutOverAnswers(digest, st, user, path, len, hash, env);
    } else if env.openOk {
      StartAnswers(digest, st, user, path, len, hash, env);
    } else {
      ErrorTexts();
    }
  }

  lemma PutOverAnswers(digest: Sha256, st: Store, user: string, path: string, len: int, hash: string, env: Env)
    requires env.writes >= 1 && env.removeOk && FullPath(user, path) in st.files
    ensures var o := PutOver(digest, st, user, FullPath(user, path), path, len, hash, env);
            o.user == user && PutAnswered(digest, st, user, path, len, hash, env, o)
  {
    ErrorTexts();
    var full := FullPath(user, path);
    if hash != Sha(digest, st.files[full]) {
      ReplaceAnswers(digest, st, user, path, len, hash, env);
    }
  }

  lemma ReplaceAnswers(digest: Sha256, st: Store, user: string, path: string, len: int, hash: string, env: Env)
    requires env.writes >= 1 && env.removeOk && FullPath(user, path) in st.files
    requires hash != Sha(digest, st.files[FullPath(user, path)])
    ensures var o := Replace(digest, st, user, FullPath(user, path), path, len, hash, env);
            o.user == user && PutAnswered(digest, st, user, path, len, hash, env, o)
  {
    var full := FullPath(user, path);
    var st1 := DropHash(st.(files := st.files - {full}), user, path);
    if env.openOk {
      assert st1.files[full := ""] == st.files[full := ""];
      StartAnswers(digest, st1, user, path, len, hash, env);
    } else {
      ErrorTexts();
    }
  }

  lemma StartAnswers(digest: Sha256, st: Store, user: string, path: string, len: int, hash: string, env: Env)
    requires env.writes >= 1
    ensures var full := FullPath(user, path);
            var o := StartBody(digest, st, user, full, path, len, hash, env);
            && o.user == user && |o.out| >= 1 && o.out[0] == Okay
            && (ToInt32(len) > 0 ==>
                  && Text(o) == "OK\r\n" && o.next == ReadBody(full, path, ToInt32(len), hash)
                  && o.store == st.(files := st.files[full := ""]))
  {
    OkayTexts("", "");
    if ToInt32(len) > 0 {
      assert StartBody(digest, st, user, FullPath(user, path), path, len, hash, env).out == [Okay];
    }
  }

  /** What a body is answered with when all of it has been read. */
  lemma BodyAnswers(digest: Sha256, st: Store, user: string, path: string, hash: string, env: Env)
    requires env.writes >= 1 && env.removeOk
    ensures var full := "../data/" + user + path;
            var content := if full in st.files then st.files[full] else "";
            var o := FinishBody(digest, st, user, full, path, hash, env);
            && o.user == user && o.next == ReadRequest
            && if !env.closeOk then o.out == [] && o.store == st
               else if hash == Sha(digest, content) then
                 && Text(o) == "OK##" + hash + "\r\n" && o.store.files == st.files
                 && UserIndex(o.store, user) == UserIndex(st, user)[path := hash]
               else
                 && Text(o) == "ERROR##7\r\n" && o.store.files == st.files - {full}
                 && UserIndex(o.store, user) == UserIndex(st, user) - {path}
  {
    OneReply(Failed(FILE_HASH_MISMATCH));
    ErrorText(7);
    OkayTexts(hash, "");
    var full := "../data/" + user + path;
    if full !in st.files { assert st.files - {full} == st.files; }
    var o := FinishBody(digest, st, user, full, path, hash, env);
    assert o.out == [] || o.out == [OkayWith(hash)] || o.out == [Failed(FILE_HASH_MISMATCH)];
  }

  /** A read within a body: what was read goes to the end of the file, and the rest is read next. */
  lemma BodyGrows(digest: Sha256, st: Store, user: string, full: string, path: string, left: int, hash: string,
                  data: Bytes, env: Env)
    requires left > |data| && full in st.files
    ensures var o := OnBody(digest, st, user, ReadBody(full, path, left, hash), data, env);
            && o.user == user && o.out == [] && o.next == ReadBody(full, path, left - |data|, hash)
            && o.store.index == st.index && o.store.files == st.files[full := st.files[full] + data]
  {
  }

  /** A chunk of a file that is sent: ten thousand bytes, or what is left. */
  lemma ChunkGoesOut(st: Store, user: string, rest: Bytes)
    requires rest != ""
    ensures var o := OnSent(st, user, SendBody(rest, |rest|));
            && o.user == user && o.store == st
            && if |rest| > 10000 then
                 Text(o) == rest[..10000] && o.next == SendBody(rest[10000..], |rest| - 10000)
               else Text(o) == rest && o.next == ReadRequest
  {
    assert rest[..|rest|] == rest;
    OneReply(Raw(rest[..Chunk(|rest|)]));
  }

  lemma SnapshotAnswers(st: Store, user: string, env: Env)
    requires env.writes >= 2 && Walks(env, st, user)
    ensures var o := HandleSnapshot(st, user, env);
            && o.store == st && o.user == user
            && if user == "" then Text(o) == "ERROR##12\r\n" && o.next == Ended
               else
                 var m := UserIndex(st, user);
                 var payload := Render(env.listing, m);
                 && o.next == ReadRequest
                 && Text(o) == "OK##" + ToString(|m|) + "##" + ToString(ToInt32(|payload|)) + "\r\n" + payload
  {
    MoreErrorTexts();
    var m := UserIndex(st, user);
    var payload := Render(env.listing, m);
    var header := SnapshotHeader(|m|, |payload|);
    OkayTexts(ToString(|m|), ToString(ToInt32(|payload|)));
    assert [header, Raw(payload)][..1] == [header];
  }

  /** A line of a snapshot, and the payload line by line. */
  lemma SnapshotLine(listing: seq<string>, m: Index)
    requires forall k :: k in listing ==> k in m
    ensures |listing| == 0 ==> Render(listing, m) == ""
    ensures |listing| > 0 ==>
              var n := |listing| - 1;
              Render(listing, m) == Render(listing[..n], m) + (listing[n] + "##" + m[listing[n]] + "\r\n")
  {
  }

  lemma PatchAnswers(st: Store, user: string, env: Env)
    requires env.writes >= 1
    ensures var o := HandlePatch(st, user, env);
            && o.store == st && o.user == user
            && if user == "" then Text(o) == "ERROR##12\r\n" && o.next == Ended
               else o.out == [] && o.next == ReadRequest
  {
    MoreErrorTexts();
  }

  /** The command words, and what comes of any other. */
  lemma Dispatched(digest: Sha256, accounts: map<string, string>, st: Store, user: string, params: seq<string>,
                   env: Env)
    requires |params| > 0 && env.writes >= 1 && Walks(env, st, user)
    ensures var o := HandleParams(digest, accounts, st, user, params, env);
            match params[0]
            case "LOGIN" => o == HandleLogin(digest, accounts, st, user, params, env)
            case "GET" => o == HandleGet(st, user, params, env)
            case "PUT" => o == HandlePut(digest, st, user, params, env)
            case "PATCH" => o == HandlePatch(st, user, env)
            case "SNAPSHOT" => o == HandleSnapshot(st, user, env)
            case "DELETE" => o == HandleDelete(st, user, params, env)
            case _ => Text(o) == "ERROR##2\r\n" && o.next == Ended && o.store == st
  {
    ErrorText(2);
  }

  /** The requests of the client, letter by letter. */
  lemma RequestTexts(node: Node)
    ensures var path := node.AbsolutePath();
            && HeaderText(Request(GET, node)) == "GET##" + path + "\r\n"
            && HeaderText(Request(DELETE, node)) == "DELETE##" + path + "\r\n"
            && HeaderText(Request(SNAPSHOT, node)) == "SNAPSHOT\r\n"
            && (node.size.Some? && |node.hashes| > 0 ==>
                  HeaderText(Request(PUT, node))
                  == "PUT##" + path + "##" + ToString(node.size.value) + "##" + ToString(node.time) + "##"
                     + node.hashes[|node.hashes| - 1] + "\r\n")
    ensures forall name, pwd :: Message(["LOGIN", name, pwd]) == "LOGIN##" + name + "##" + pwd + "\r\n"
  {
    var path := node.AbsolutePath();
    assert "GET" + "##" + path == "GET##" + path && "DELETE" + "##" + path == "DELETE##" + path;
    if node.size.Some? && |node.hashes| > 0 {
      var size, time, hash := ToString(node.size.value), ToString(node.time), node.hashes[|node.hashes| - 1];
      assert "PUT" + "##" + (path + "##" + size + "##" + time + "##" + hash) + "\r\n"
          == "PUT##" + path + "##" + size + "##" + time + "##" + hash + "\r\n";
    }
    forall name, pwd ensures Message(["LOGIN", name, pwd]) == "LOGIN##" + name + "##" + pwd + "\r\n" {
      LoginText(name, pwd);
    }
  }

  lemma LoginText(name: string, pwd: string)
    ensures Message(["LOGIN", name, pwd]) == "LOGIN##" + name + "##" + pwd + "\r\n"
  {
    ThreeFields("LOGIN", name, pwd);
    assert "LOGIN" + "##" == "LOGIN##";
  }

  /** What the replies do to the mirror; `None` where an exception is thrown over one. */
  lemma ReplyEffects(mirror: Mirror, node: Node, field: string)
    ensures var key := node.AbsolutePath();
            var inserted := if key in mirror then mirror else mirror[key := node];
            && OnPutReply(mirror, node, ["OK", field]) == Some(inserted)
            && OnDeleteReply(mirror, node, ["OK", field]) == mirror - {key}
            && OnDeleteReply(mirror, node, ["ERROR", field]) == mirror
            && OnGetRefused(mirror, node, ["ERROR", field]) == OnPutReply(mirror, node, ["ERROR", field])
            && OnPutReply(mirror, node, ["ERROR", field])
                 == match Stoi(field)
                    case None => None
                    case Some(code) =>
                      Some(if code == 8 then inserted else if code == 10 then mirror - {key} else mirror)
  {
  }

  /** Any other reply does nothing to it. */
  lemma OtherReplies(mirror: Mirror, node: Node, params: seq<string>)
    requires |params| != 2 || (params[0] != "OK" && params[0] != "ERROR")
    ensures OnPutReply(mirror, node, params) == Some(mirror) && OnGetRefused(mirror, node, params) == Some(mirror)
    ensures OnDeleteReply(mirror, node, params) == mirror
  {
  }

  /** An exception is thrown over a reply exactly when it lacks a number, or has one that cannot be read. */
  lemma ThrowsExactly(req: Request, params: seq<string>)
    ensures var unread := |params| == 2 && params[0] == "ERROR" && Stoi(params[1]).None?;
            Throws(req, params)
            <==> match req.verb
                 case PUT => unread
                 case GET => unread || (|params| == 2 && params[0] == "OK" && Stol(params[1]).None?)
                 case SNAPSHOT =>
                   |params| == 0
                   || (params[0] == "OK" && (|params| < 3 || Stoi(params[1]).None? || Stoi(params[2]).None?))
                 case _ => false
  {
  }

  /** What the error codes do to the mirror. */
  lemma ErrorEffects(mirror: Mirror, node: Node, code: int)
    ensures var key, after := node.AbsolutePath(), ErrorEffect(mirror, node, code);
            if code == 8 then
              && after.Keys == mirror.Keys + {key} && (forall k :: k in mirror ==> after[k] == mirror[k])
              && (key !in mirror ==> after[key] == node)
            else if code == 10 then after == mirror - {key}
            else after == mirror
  {
  }
}

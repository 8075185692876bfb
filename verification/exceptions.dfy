/** When an exception leaves a handler of server/session.cpp. Nothing in server/main.cpp catches it in
    the threads that run the handlers, so it ends the process, and with it every session. */
module Exceptions {
  import opened Wire
  import opened Numbers
  import opened Option
  import opened Hashing
  import opened Stores
  import opened Protocol
  import opened Sessions

  /** The parameters a PUT is handled with are there, and its numbers parse. */
  predicate Readable(params: seq<string>) {
    |params| >= 5 && Stol(params[2]).Some? && Stoi(params[3]).Some?
  }

  /** Parameters that a handler looks up without their being there, or numbers that do not parse. */
  predicate Unreadable(user: string, params: seq<string>) {
    IsLogged(user) && |params| > 0
    && ((params[0] == "PUT" && |params| >= 4 && !Readable(params)) || (params[0] == "DELETE" && |params| < 2))
  }

  /** Another file stands where a PUT goes. */
  predicate InTheWay(digest: Sha256, st: Store, user: string, params: seq<string>)
    requires Readable(params)
  {
    var full := FullPath(user, params[1]);
    full in st.files && params[4] != Sha(digest, st.files[full])
  }

  /** A PUT comes to write its file. */
  predicate Opens(digest: Sha256, st: Store, user: string, params: seq<string>, env: Env)
    requires Readable(params)
  {
    env.openOk && (FullPath(user, params[1]) !in st.files || (InTheWay(digest, st, user, params) && env.removeOk))
  }

  /** A PUT judges its file within the handler of its request: nothing of it is to be read. */
  predicate Judges(digest: Sha256, st: Store, user: string, params: seq<string>, env: Env)
    requires Readable(params)
  {
    Opens(digest, st, user, params, env) && ToInt32(Stol(params[2]).value) <= 0 && env.closeOk
  }

  /** A file that is to be removed cannot be. */
  predicate CannotRemove(digest: Sha256, st: Store, user: string, params: seq<string>, env: Env) {
    && !env.removeOk && IsLogged(user) && |params| > 1
    && if params[0] == "DELETE" then FullPath(user, params[1]) in st.files
       else
         && params[0] == "PUT" && Readable(params)
         && (InTheWay(digest, st, user, params)
             || (Judges(digest, st, user, params, env) && params[4] != Sha(digest, "")))
  }

  /** The replies a handler writes before it is through. */
  function RepliesDue(digest: Sha256, st: Store, user: string, params: seq<string>, env: Env): nat
    requires |params| > 0
  {
    if params[0] == "SNAPSHOT" && IsLogged(user) then 2
    else if params[0] == "PATCH" && IsLogged(user) then 0
    else if params[0] == "PUT" && IsLogged(user) && Readable(params) && Judges(digest, st, user, params, env) then 2
    else 1
  }

  /** An exception leaves the handler of a request if and only if there is no command at all, a parameter
      or a number is missing, a file cannot be removed, or the client is found gone before all replies
      are written. */
  lemma AbortsExactly(digest: Sha256, accounts: map<string, string>, st: Store, user: string, params: seq<string>,
                      env: Env)
    requires Walks(env, st, user)
    ensures HandleParams(digest, accounts, st, user, params, env).next.Aborted? <==>
              || |params| == 0
              || Unreadable(user, params)
              || CannotRemove(digest, st, user, params, env)
              || env.writes < RepliesDue(digest, st, user, params, env)
  {
    if |params| == 0 { return; }
    match ActionOf(params[0]) {
      case Some(PutAction) => PutAbortsExactly(digest, st, user, params, env);
      case Some(DeleteAction) => DeleteAbortsExactly(digest, st, user, params, env);
      case _ =>
    }
  }

  lemma DeleteAbortsExactly(digest: Sha256, st: Store, user: string, params: seq<string>, env: Env)
    requires |params| > 0 && params[0] == "DELETE"
    ensures HandleDelete(st, user, params, env).next.Aborted? <==>
              Unreadable(user, params) || CannotRemove(digest, st, user, params, env) || env.writes < 1
  {
  }

  lemma PutAbortsExactly(digest: Sha256, st: Store, user: string, params: seq<string>, env: Env)
    requires |params| > 0 && params[0] == "PUT"
    ensures HandlePut(digest, st, user, params, env).next.Aborted? <==>
              || Unreadable(user, params)
              || CannotRemove(digest, st, user, params, env)
              || env.writes < RepliesDue(digest, st, user, params, env)
  {
    if IsLogged(user) && Readable(params) {
      var path, len, hash := params[1], Stol(params[2]).value, params[4];
      var full := FullPath(user, path);
      if full !in st.files {
        if env.openOk { StartAbortsExactly(digest, st, user, path, len, hash, env); }
      } else if InTheWay(digest, st, user, params) && env.removeOk {
        if env.openOk { StartAbortsExactly(digest, DropHash(st.(files := st.files - {full}), user, path), user, path,
                                           len, hash, env); }
      }
    }
  }

  /** The part of PUT that writes a file afresh. */
  lemma StartAbortsExactly(digest: Sha256, st: Store, user: string, path: string, len: int, hash: string, env: Env)
    ensures StartBody(digest, st, user, FullPath(user, path), path, len, hash, env).next.Aborted? <==>
              || env.writes < 1
              || (ToInt32(len) <= 0 && env.closeOk && (env.writes < 2 || (hash != Sha(digest, "") && !env.removeOk)))
  {
  }

  /** An exception leaves the handler of a part of a body if and only if it was the last part, the file
      closes, and either it is not what was declared and cannot be removed, or the client is gone. */
  lemma BodyAbortsExactly(digest: Sha256, st: Store, user: string, b: Next, data: Bytes, env: Env)
    requires b.ReadBody? && b.full in st.files
    ensures OnBody(digest, st, user, b, data, env).next.Aborted? <==>
              && b.remaining <= |data| && env.closeOk
              && (env.writes == 0 || (!env.removeOk && b.hash != Sha(digest, st.files[b.full] + data)))
  {
  }
}

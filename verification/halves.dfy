/** The handlers of server/session.cpp cut where another thread can see the store in between:
    `delete_file` removes a file in one statement and its index entry in the next. A handler runs up to
    its next removal, pauses, and is resumed on whatever the store is then. */
module Halves {
  import opened Wire
  import opened Numbers
  import opened Option
  import opened Hashing
  import opened Stores
  import opened Protocol
  import opened Sessions

  /** What a handler does once the entry is gone as well: answer a DELETE, answer for a body that was
      not what was declared, or start the file of a PUT afresh. */
  datatype After = Answering | Mismatched | Replacing(len: int, hash: string)

  /** The second half of the deletion of a path. */
  datatype Half = Half(path: string, after: After)

  datatype Phase = Done(outcome: Outcome) | Paused(store: Store, out: seq<Reply>, half: Half)

  function Prefixed(reply: Reply, ph: Phase): Phase {
    match ph
    case Done(o) => Done(o.(out := [reply] + o.out))
    case Paused(st, out, half) => Paused(st, [reply] + out, half)
  }

  /** `delete_file` of a file that is not there. */
  function NothingThere(st: Store, user: string, path: string, after: After, env: Env): Outcome {
    var reply := Failed(if after.Mismatched? then FILE_HASH_MISMATCH else FILE_DELETE_ERROR);
    Answer(DropHash(st, user, path), user, reply, ReadRequest, env)
  }

  /** The first half of `delete_file`. */
  function Remove(st: Store, user: string, full: string, path: string, after: After, env: Env): Phase {
    if full !in st.files then Done(NothingThere(st, user, path, after, env))
    else if env.removeOk then Paused(st.(files := st.files - {full}), [], Half(path, after))
    else Done(Outcome(st, user, [], Aborted))
  }

  function FinishPhase(digest: Sha256, st: Store, user: string, full: string, path: string, hash: string,
                       env: Env): (ph: Phase)
    ensures ph.Paused? ==> ph.half == Half(path, Mismatched)
  {
    if !env.closeOk then Done(Outcome(st, user, [], ReadRequest))
    else if hash != FileHash(digest, st.files, full) then Remove(st, user, full, path, Mismatched, env)
    else Done(Answer(SaveHash(st, user, path, hash), user, OkayWith(hash), ReadRequest, env))
  }

  function ReceivePhase(digest: Sha256, st: Store, user: string, full: string, path: string, len: int, hash: string,
                        env: Env): (ph: Phase)
    ensures ph.Paused? ==> ph.half == Half(path, Mismatched)
  {
    if len > 0 then Done(Outcome(st, user, [], ReadBody(full, path, len, hash)))
    else FinishPhase(digest, st, user, full, path, hash, env)
  }

  function BodyPhase(digest: Sha256, st: Store, user: string, b: Next, data: Bytes, env: Env): Phase
    requires b.ReadBody?
  {
    ReceivePhase(digest, st.(files := AppendTo(st.files, b.full, data)), user, b.full, b.path, b.remaining - |data|,
                 b.hash, env)
  }

  function StartPhase(digest: Sha256, st: Store, user: string, full: string, path: string, len: int, hash: string,
                      env: Env): (ph: Phase)
    ensures ph.Paused? ==> ph.half == Half(path, Mismatched)
  {
    var st1 := st.(files := st.files[full := ""]);
    if env.writes == 0 then Done(Outcome(st1, user, [], Aborted))
    else Prefixed(Okay, ReceivePhase(digest, st1, user, full, path, ToInt32(len), hash, env.(writes := env.writes - 1)))
  }

  function ReopenPhase(digest: Sha256, st: Store, user: string, full: string, path: string, len: int, hash: string,
                       env: Env): (ph: Phase)
    ensures ph.Paused? ==> ph.half == Half(path, Mismatched)
  {
    if !env.openOk then Done(Answer(st, user, Failed(FILE_CREATE_ERROR), ReadRequest, env))
    else StartPhase(digest, st, user, full, path, len, hash, env)
  }

  /** The second half, and what the handler does after it. */
  function ResumePhase(digest: Sha256, st: Store, user: string, half: Half, env: Env): (ph: Phase)
    ensures ph.Paused? ==> half.after.Replacing? && ph.half == Half(half.path, Mismatched)
  {
    var st1 := DropHash(st, user, half.path);
    match half.after
    case Answering => Done(Answer(st1, user, OkayWith(ToString(1)), ReadRequest, env))
    case Mismatched => Done(Answer(st1, user, Failed(FILE_HASH_MISMATCH), ReadRequest, env))
    case Replacing(len, hash) => ReopenPhase(digest, st1, user, FullPath(user, half.path), half.path, len, hash, env)
  }

  function PutPhase(digest: Sha256, st: Store, user: string, params: seq<string>, env: Env): Phase {
    if !IsLogged(user) || |params| < 5 || Stol(params[2]).None? || Stoi(params[3]).None? then
      Done(HandlePut(digest, st, user, params, env))
    else
      var path, len, hash := params[1], Stol(params[2]).value, params[4];
      var full := FullPath(user, path);
      if full in st.files then
        if hash == FileHash(digest, st.files, full) then
          Done(Answer(st, user, Failed(FILE_ALREADY_EXISTS), ReadRequest, env))
        else Remove(st, user, full, path, Replacing(len, hash), env)
      else if !env.openOk then Done(Answer(st, user, Failed(FILE_CREATE_ERROR), Ended, env))
      else StartPhase(digest, st, user, full, path, len, hash, env)
  }

  function DeletePhase(st: Store, user: string, params: seq<string>, env: Env): Phase {
    if !IsLogged(user) || |params| < 2 then Done(HandleDelete(st, user, params, env))
    else Remove(st, user, FullPath(user, params[1]), params[1], Answering, env)
  }

  ghost function ParamsPhase(digest: Sha256, accounts: map<string, string>, st: Store, user: string,
                             params: seq<string>, env: Env): Phase
    requires Walks(env, st, user)
  {
    if |params| > 0 && params[0] == "PUT" then PutPhase(digest, st, user, params, env)
    else if |params| > 0 && params[0] == "DELETE" then DeletePhase(st, user, params, env)
    else Done(HandleParams(digest, accounts, st, user, params, env))
  }

  /** A handler that is resumed at once, as often as it pauses. */
  function Whole(digest: Sha256, user: string, ph: Phase, env: Env): Outcome
    decreases if ph.Done? then 0 else if ph.half.after.Replacing? then 2 else 1
  {
    match ph
    case Done(o) => o
    case Paused(st, out, half) =>
      var rest := env.(writes := if |out| <= env.writes then env.writes - |out| else 0);
      var o := Whole(digest, user, ResumePhase(digest, st, user, half, rest), rest);
      o.(out := out + o.out)
  }

  /** Resumed at once, the halves are the handlers. */
  lemma WholeBody(digest: Sha256, st: Store, user: string, b: Next, data: Bytes, env: Env)
    requires b.ReadBody?
    ensures Whole(digest, user, BodyPhase(digest, st, user, b, data, env), env)
              == OnBody(digest, st, user, b, data, env)
  {
    var st1 := st.(files := AppendTo(st.files, b.full, data));
    WholeReceive(digest, st1, user, b.full, b.path, b.remaining - |data|, b.hash, env);
  }

  lemma WholeReceive(digest: Sha256, st: Store, user: string, full: string, path: string, len: int, hash: string,
                     env: Env)
    ensures Whole(digest, user, ReceivePhase(digest, st, user, full, path, len, hash, env), env)
         == ReceiveBody(digest, st, user, full, path, len, hash, env)
  {
    var o := ReceiveBody(digest, st, user, full, path, len, hash, env);
    assert [] + o.out == o.out;
  }

  lemma WholePrefixed(digest: Sha256, user: string, ph: Phase, reply: Reply, env: Env)
    requires env.writes > 0 && (ph.Paused? ==> ph.out == [])
    ensures var o := Whole(digest, user, ph, env.(writes := env.writes - 1));
            Whole(digest, user, Prefixed(reply, ph), env) == o.(out := [reply] + o.out)
  {
    if ph.Paused? {
      var o := Whole(digest, user, ph, env.(writes := env.writes - 1));
      assert [reply] + [] == [reply];
      var rest := env.(writes := env.writes - 1);
      var o2 := Whole(digest, user, ResumePhase(digest, ph.store, user, ph.half, rest), rest);
      assert [] + o2.out == o2.out;
    }
  }

  lemma WholeReopen(digest: Sha256, st: Store, user: string, full: string, path: string, len: int, hash: string,
                    env: Env)
    ensures Whole(digest, user, ReopenPhase(digest, st, user, full, path, len, hash, env), env)
         == Reopen(digest, st, user, full, path, len, hash, env)
  {
    if env.openOk { WholeStart(digest, st, user, full, path, len, hash, env); }
  }

  lemma WholeStart(digest: Sha256, st: Store, user: string, full: string, path: string, len: int, hash: string,
                   env: Env)
    ensures Whole(digest, user, StartPhase(digest, st, user, full, path, len, hash, env), env)
         == StartBody(digest, st, user, full, path, len, hash, env)
  {
    if env.writes > 0 {
      var st1, rest := st.(files := st.files[full := ""]), env.(writes := env.writes - 1);
      var ph := ReceivePhase(digest, st1, user, full, path, ToInt32(len), hash, rest);
      WholeReceive(digest, st1, user, full, path, ToInt32(len), hash, rest);
      WholePrefixed(digest, user, ph, Okay, env);
    }
  }

  lemma WholeReplace(digest: Sha256, st: Store, user: string, path: string, len: int, hash: string, env: Env)
    requires FullPath(user, path) in st.files
    ensures Whole(digest, user, Remove(st, user, FullPath(user, path), path, Replacing(len, hash), env), env)
         == Replace(digest, st, user, FullPath(user, path), path, len, hash, env)
  {
    if env.removeOk {
      var full := FullPath(user, path);
      var st1 := DropHash(st.(files := st.files - {full}), user, path);
      WholeReopen(digest, st1, user, full, path, len, hash, env);
      var o := Reopen(digest, st1, user, full, path, len, hash, env);
      assert [] + o.out == o.out;
    }
  }

  lemma WholeDelete(digest: Sha256, st: Store, user: string, params: seq<string>, env: Env)
    ensures Whole(digest, user, DeletePhase(st, user, params, env), env) == HandleDelete(st, user, params, env)
  {
    var o := HandleDelete(st, user, params, env);
    assert [] + o.out == o.out;
  }

  lemma WholePut(digest: Sha256, st: Store, user: string, params: seq<string>, env: Env)
    ensures Whole(digest, user, PutPhase(digest, st, user, params, env), env)
              == HandlePut(digest, st, user, params, env)
  {
    if IsLogged(user) && |params| >= 5 && Stol(params[2]).Some? && Stoi(params[3]).Some? {
      var path, len, hash := params[1], Stol(params[2]).value, params[4];
      if FullPath(user, path) in st.files {
        WholeReplace(digest, st, user, path, len, hash, env);
      } else {
        WholeStart(digest, st, user, FullPath(user, path), path, len, hash, env);
      }
    }
  }

  lemma WholeRequest(digest: Sha256, accounts: map<string, string>, st: Store, user: string, params: seq<string>,
                     env: Env)
    requires Walks(env, st, user)
    ensures Whole(digest, user, ParamsPhase(digest, accounts, st, user, params, env), env)
         == HandleParams(digest, accounts, st, user, params, env)
  {
    WholePut(digest, st, user, params, env);
    WholeDelete(digest, st, user, params, env);
  }
}

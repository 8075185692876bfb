/** Any number of sessions interleaved over one store: what is in the index is on the disk, in every
    state they can reach, save for deletions that are half done; and a session touches nothing but what
    its user owns.

    A handler is one step, cut in two where `delete_file` has removed a file and not yet its entry
    (module Halves): other sessions come in between there, and so does the end of the process.

    Two things are asked of the environment, because the program itself does not see to them. Paths
    given to PUT and DELETE start with '/' and user names hold none. While a session receives a
    file or is deleting it, no other session is given a PUT or a DELETE for that file. */
module MultiSession {
  import opened Wire
  import opened Hashing
  import opened Stores
  import opened Nodes
  import opened Option
  import opened Sessions
  import opened Halves

  /** `half` is what the session has still to do of a handler that has removed a file. */
  datatype Sess = Sess(user: string, next: Next, half: Option<Half>)

  /** `torn` is history: the deletions (user, path) that an end of the process has cut in two, as long
      as their entries have not been dropped or written again. */
  datatype Server = Server(store: Store, sessions: map<nat, Sess>, torn: set<(string, string)>)

  datatype Event =
    | Accept(id: nat)
    | Request(id: nat, request: Bytes, env: Env)
    | Body(id: nat, data: Bytes, env: Env)
    | Sent(id: nat)
    | Resume(id: nat, env: Env)
    | Drop(id: nat)
    /** The process ends, and is started again without sessions. */
    | End

  ghost predicate SlashFree(user: string) {
    forall i :: 0 <= i < |user| ==> user[i] != '/'
  }

  ghost predicate GoodAccounts(accounts: map<string, string>) {
    forall u :: u in accounts ==> u != "" && SlashFree(u)
  }

  /** The path a request may change the file of. */
  function Target(params: seq<string>): Option<string> {
    if |params| >= 2 && (params[0] == "PUT" || params[0] == "DELETE") then Some(params[1]) else None
  }

  /** The file a session is receiving or deleting. */
  function Claim(sess: Sess): Option<string> {
    if sess.half.Some? then Some(FullPath(sess.user, sess.half.value.path))
    else if sess.next.ReadBody? then Some(sess.next.full)
    else None
  }

  ghost predicate Enabled(s: Server, e: Event) {
    match e
    case Accept(id) => id !in s.sessions
    case End => true
    case Resume(id, env) => id in s.sessions && s.sessions[id].half.Some?
    case Drop(id) => id in s.sessions && s.sessions[id].half.None?
    case Request(id, request, env) =>
      && id in s.sessions && s.sessions[id].half.None? && s.sessions[id].next.ReadRequest?
      && Walks(env, s.store, s.sessions[id].user)
      && (Target(Params(request)).Some? ==>
            && IsRemote(Target(Params(request)).value)
            && forall j :: j in s.sessions ==>
                             Claim(s.sessions[j]) != Some(FullPath(s.sessions[id].user, Target(Params(request)).value)))
    case Body(id, data, env) =>
      && id in s.sessions && s.sessions[id].half.None? && s.sessions[id].next.ReadBody?
      && s.sessions[id].next.remaining > 0 && 0 < |data| <= Chunk(s.sessions[id].next.remaining)
    case Sent(id) =>
      && id in s.sessions && s.sessions[id].half.None? && s.sessions[id].next.SendBody?
      && 0 < s.sessions[id].next.remaining <= |s.sessions[id].next.rest|
  }

  predicate IsHandler(e: Event) { e.Request? || e.Body? || e.Sent? || e.Resume? }

  /** How far the handler of an event gets. */
  ghost function PhaseOf(digest: Sha256, accounts: map<string, string>, s: Server, e: Event): Phase
    requires Enabled(s, e) && IsHandler(e)
  {
    var sess := s.sessions[e.id];
    match e
    case Request(id, request, env) => ParamsPhase(digest, accounts, s.store, sess.user, Params(request), env)
    case Body(id, data, env) => BodyPhase(digest, s.store, sess.user, sess.next, data, env)
    case Sent(id) => Done(OnSent(s.store, sess.user, sess.next))
    case Resume(id, env) => ResumePhase(digest, s.store, sess.user, sess.half.value, env)
  }

  /** The process ends: by itself, or because an exception leaves a handler. */
  ghost predicate Ends(digest: Sha256, accounts: map<string, string>, s: Server, e: Event)
    requires Enabled(s, e)
  {
    e.End?
    || (IsHandler(e) && PhaseOf(digest, accounts, s, e).Done? && PhaseOf(digest, accounts, s, e).outcome.next.Aborted?)
  }

  ghost function StoreAfter(digest: Sha256, accounts: map<string, string>, s: Server, e: Event): Store
    requires Enabled(s, e)
  {
    if !IsHandler(e) then s.store
    else
      match PhaseOf(digest, accounts, s, e)
      case Paused(st, out, half) => st
      case Done(o) => o.store
  }

  /** A session that arms nothing is gone. */
  ghost function SessionsAfter(digest: Sha256, accounts: map<string, string>, s: Server, e: Event): map<nat, Sess>
    requires Enabled(s, e)
  {
    if Ends(digest, accounts, s, e) then map[]
    else if e.Accept? then s.sessions[e.id := Sess("", ReadRequest, None)]
    else if e.Drop? then s.sessions - {e.id}
    else
      match PhaseOf(digest, accounts, s, e)
      case Paused(st, out, half) => s.sessions[e.id := Sess(s.sessions[e.id].user, Ended, Some(half))]
      case Done(o) => if o.next.Ended? then s.sessions - {e.id} else s.sessions[e.id := Sess(o.user, o.next, None)]
  }

  ghost function Step(digest: Sha256, accounts: map<string, string>, s: Server, e: Event): Server
    requires Enabled(s, e)
  {
    var st, sessions := StoreAfter(digest, accounts, s, e), SessionsAfter(digest, accounts, s, e);
    var among := if Ends(digest, accounts, s, e) then s.torn + Halfway(s.sessions) else s.torn;
    Server(st, sessions, StillTorn(digest, st, sessions, among))
  }

  ghost predicate IsRun(digest: Sha256, accounts: map<string, string>, ss: seq<Server>, es: seq<Event>) {
    && |ss| == |es| + 1
    && forall i :: 0 <= i < |es| ==> Enabled(ss[i], es[i]) && ss[i + 1] == Step(digest, accounts, ss[i], es[i])
  }

  /** The deletions (user, path) that are half done. */
  ghost function Halfway(sessions: map<nat, Sess>): set<(string, string)> {
    set id | id in sessions && sessions[id].half.Some? :: (sessions[id].user, sessions[id].half.value.path)
  }

  /** Some session is receiving a file for the pair. */
  ghost predicate Received(sessions: map<nat, Sess>, x: (string, string)) {
    exists id :: id in sessions && sessions[id].half.None? && sessions[id].next.ReadBody?
      && sessions[id].user == x.0 && sessions[id].next.path == x.1
  }

  /** The pairs that an entry is still left of. */
  ghost function StillTorn(digest: Sha256, st: Store, sessions: map<nat, Sess>,
                           among: set<(string, string)>): set<(string, string)> {
    set x | x in among && x.1 in UserIndex(st, x.0) && (!Sound(digest, st, x.0, x.1) || Received(sessions, x))
  }

  /** The index entry of `user` for `path` tells the truth: the file is there and has that hash. */
  ghost predicate Sound(digest: Sha256, st: Store, user: string, path: string)
    requires path in UserIndex(st, user)
  {
    && SlashFree(user) && IsRemote(path)
    && FullPath(user, path) in st.files
    && UserIndex(st, user)[path] == Sha(digest, st.files[FullPath(user, path)])
  }

  /** Every entry does, save for some. */
  ghost predicate SoundBut(digest: Sha256, st: Store, bad: set<(string, string)>) {
    forall u, p :: p in UserIndex(st, u) ==> (u, p) in bad || Sound(digest, st, u, p)
  }

  /** A session in the middle of receiving: its file exists, and has no entry, or one that is torn. One
      in the middle of deleting: the file does not exist. */
  ghost predicate SoundSess(accounts: map<string, string>, st: Store, torn: set<(string, string)>, sess: Sess) {
    && (sess.user == "" || sess.user in accounts)
    && if sess.half.Some? then
         sess.user in accounts && IsRemote(sess.half.value.path)
         && FullPath(sess.user, sess.half.value.path) !in st.files
       else
         match sess.next
         case ReadBody(full, path, remaining, hash) =>
           && sess.user in accounts && IsRemote(path) && full == FullPath(sess.user, path)
           && full in st.files && remaining > 0 && (path in UserIndex(st, sess.user) ==> (sess.user, path) in torn)
         case SendBody(rest, remaining) => 0 < remaining <= |rest|
         case ReadRequest => true
         case _ => false
  }

  ghost predicate SessionsSound(accounts: map<string, string>, s: Server) {
    forall id :: id in s.sessions ==> SoundSess(accounts, s.store, s.torn, s.sessions[id])
  }

  ghost predicate ClaimsDiffer(sessions: map<nat, Sess>) {
    forall i, j :: i in sessions && j in sessions && i != j && Claim(sessions[i]).Some? ==>
                     Claim(sessions[i]) != Claim(sessions[j])
  }

  ghost predicate TornLeft(digest: Sha256, accounts: map<string, string>, s: Server) {
    forall x :: x in s.torn ==>
      && x.0 in accounts && IsRemote(x.1) && x.1 in UserIndex(s.store, x.0)
      && (!Sound(digest, s.store, x.0, x.1) || Received(s.sessions, x))
  }

  ghost predicate Inv(digest: Sha256, accounts: map<string, string>, s: Server) {
    && SoundBut(digest, s.store, s.torn + Halfway(s.sessions))
    && SessionsSound(accounts, s) && ClaimsDiffer(s.sessions) && TornLeft(digest, accounts, s)
  }

  /** directory + user + path determines user and path, for users without '/' and paths that start
      with one. */
  lemma {:induction false} FullPathInjective(u: string, p: string, v: string, q: string)
    requires SlashFree(u) && SlashFree(v) && IsRemote(p) && IsRemote(q)
    ensures FullPath(u, p) == FullPath(v, q) <==> u == v && p == q
  {
    if FullPath(u, p) == FullPath(v, q) {
      SameRest(u, p, v, q);
      FirstSlash(u, p);
      FirstSlash(v, q);
      assert (u + p)[..|u|] == u && (v + q)[..|v|] == v;
      assert (u + p)[|u|..] == p && (v + q)[|v|..] == q;
    }
  }

  lemma SameRest(u: string, p: string, v: string, q: string)
    requires FullPath(u, p) == FullPath(v, q)
    ensures u + p == v + q
  {
    assert FullPath(u, p)[|DATA_DIR|..] == u + p && FullPath(v, q)[|DATA_DIR|..] == v + q;
  }

  /** In user + path the first slash is where the path begins. */
  lemma FirstSlash(u: string, p: string)
    requires SlashFree(u) && IsRemote(p)
    ensures (u + p)[|u|] == '/' && forall i :: 0 <= i < |u| ==> (u + p)[i] != '/'
  {
  }

  ghost predicate HasSlash(p: string) { exists i :: 0 <= i < |p| && p[i] == '/' }

  /** Nobody else's file is where the path of `u` leads. */
  ghost predicate Separate(u: string, p: string) {
    forall v, q :: SlashFree(v) && v != u && IsRemote(q) ==> FullPath(u, p) != FullPath(v, q)
  }

  /** A path of a user leads to no file of another user if and only if it starts with a slash, or has
      none at all. */
  lemma SeparateExactly(u: string, p: string)
    requires SlashFree(u)
    ensures Separate(u, p) <==> IsRemote(p) || !HasSlash(p)
  {
    if IsRemote(p) {
      forall v, q | SlashFree(v) && v != u && IsRemote(q) ensures FullPath(u, p) != FullPath(v, q) {
        FullPathInjective(u, p, v, q);
      }
    } else if HasSlash(p) {
      SharedWithOther(u, p);
    } else {
      forall v, q | SlashFree(v) && v != u && IsRemote(q) ensures FullPath(u, p) != FullPath(v, q) {
        NoSlashNoOther(u, p, v, q);
      }
    }
  }

  lemma FullPathCollides()
    ensures FullPath("iv", "an/f") == FullPath("ivan", "/f")
  {
  }

  lemma SharedWithOther(u: string, p: string)
    requires SlashFree(u) && HasSlash(p) && !IsRemote(p)
    ensures !Separate(u, p)
  {
    FirstOf(p);
    var i :| 0 <= i < |p| && p[i] == '/' && forall j :: 0 <= j < i ==> p[j] != '/';
    var v, q := u + p[..i], p[i..];
    assert i > 0;
    assert SlashFree(v) && |v| > |u| && IsRemote(q);
    assert FullPath(u, p) == FullPath(v, q) by {
      assert p == p[..i] + p[i..];
    }
  }

  lemma FirstOf(p: string)
    requires HasSlash(p)
    ensures exists i :: 0 <= i < |p| && p[i] == '/' && forall j :: 0 <= j < i ==> p[j] != '/'
  {
    var i := 0;
    while p[i] != '/'
      invariant 0 <= i < |p| && forall j :: 0 <= j < i ==> p[j] != '/'
      decreases |p| - i
    {
      assert exists j :: i < j < |p| && p[j] == '/';
      i := i + 1;
    }
  }

  lemma NoSlashNoOther(u: string, p: string, v: string, q: string)
    requires SlashFree(u) && !HasSlash(p) && IsRemote(q)
    ensures FullPath(u, p) != FullPath(v, q)
  {
    assert (v + q)[|v|] == '/';
    assert forall i :: 0 <= i < |u + p| ==> (u + p)[i] != '/';
    if FullPath(u, p) == FullPath(v, q) {
      SameRest(u, p, v, q);
      assert false;
    }
  }

  /** Everything of the store but the file and the entry of (user, path). */
  ghost predicate SameElsewhere(st: Store, st1: Store, user: string, path: string) {
    && (forall f :: f != FullPath(user, path) ==> (f in st.files <==> f in st1.files))
    && (forall f :: f != FullPath(user, path) && f in st.files ==> st1.files[f] == st.files[f])
    && (forall u :: u != user ==> UserIndex(st1, u) == UserIndex(st, u))
    && UserIndex(st1, user) - {path} == UserIndex(st, user) - {path}
  }

  lemma ElsewhereTransitive(st: Store, st1: Store, st2: Store, user: string, path: string)
    requires SameElsewhere(st, st1, user, path) && SameElsewhere(st1, st2, user, path)
    ensures SameElsewhere(st, st2, user, path)
  {
  }

  /** An entry for something else is as true as it was. */
  lemma SoundElsewhere(digest: Sha256, st: Store, st1: Store, user: string, path: string, u: string, p: string)
    requires SlashFree(user) && IsRemote(path) && SameElsewhere(st, st1, user, path)
    requires (u, p) != (user, path) && p in UserIndex(st1, u)
    ensures p in UserIndex(st, u) && (Sound(digest, st, u, p) ==> Sound(digest, st1, u, p))
  {
    if u == user { assert p in UserIndex(st1, user) - {path}; }
    assert p in UserIndex(st, u) && UserIndex(st1, u)[p] == UserIndex(st, u)[p] by {
      if u == user { assert (UserIndex(st1, user) - {path})[p] == (UserIndex(st, user) - {path})[p]; }
    }
    if Sound(digest, st, u, p) { FullPathInjective(u, p, user, path); }
  }

  /** A change at one place keeps the rest sound; what counts is the entry there. */
  lemma SoundAfter(digest: Sha256, st: Store, st1: Store, user: string, path: string, bad: set<(string, string)>,
                   bad1: set<(string, string)>)
    requires SlashFree(user) && IsRemote(path) && SameElsewhere(st, st1, user, path)
    requires SoundBut(digest, st, bad) && forall x :: x in bad && x != (user, path) ==> x in bad1
    requires path in UserIndex(st1, user) ==> (user, path) in bad1 || Sound(digest, st1, user, path)
    ensures SoundBut(digest, st1, bad1)
  {
    forall u, p | p in UserIndex(st1, u) ensures (u, p) in bad1 || Sound(digest, st1, u, p) {
      if (u, p) != (user, path) {
        SoundElsewhere(digest, st, st1, user, path, u, p);
        assert (u, p) in bad || Sound(digest, st, u, p);
      }
    }
  }

  /** What a handler may change: what its user has at its target, and, with no target, entries of its
      user that it drops. */
  ghost predicate Confined(st: Store, st1: Store, user: string, target: Option<string>) {
    match target
    case Some(path) => SameElsewhere(st, st1, user, path)
    case None =>
      && st1.files == st.files
      && UserIndex(st1, user).Keys <= UserIndex(st, user).Keys
      && forall u :: u != user ==> UserIndex(st1, u) == UserIndex(st, u)
  }

  /** What a handler leaves that runs to its end. */
  ghost predicate DoneGood(digest: Sha256, accounts: map<string, string>, bad: set<(string, string)>, st: Store,
                           user: string,
                           target: Option<string>, o: Outcome) {
    && SoundBut(digest, o.store, bad) && Confined(st, o.store, user, target)
    && (o.user == user || (o.store == st && target.None?)) && (o.user == "" || o.user in accounts)
    && (o.store != st ==> user in accounts)
    && match o.next
       case ReadBody(full, path, remaining, hash) =>
         && target == Some(path) && user in accounts && IsRemote(path) && full == FullPath(user, path) && remaining > 0
         && full in o.store.files && (path in UserIndex(o.store, user) ==> (user, path) in bad)
       case SendBody(rest, remaining) => 0 < remaining <= |rest|
       case _ => true
  }

  /** What one leaves that is half through a deletion: the file is gone, and its entry may be untrue. */
  ghost predicate PausedGood(digest: Sha256, accounts: map<string, string>, bad: set<(string, string)>, st: Store,
                             user: string,
                             target: Option<string>, st1: Store, half: Half) {
    && target == Some(half.path) && user in accounts && IsRemote(half.path)
    && SoundBut(digest, st1, bad + {(user, half.path)}) && SameElsewhere(st, st1, user, half.path)
    && FullPath(user, half.path) !in st1.files
  }

  ghost predicate PhaseGood(digest: Sha256, accounts: map<string, string>, bad: set<(string, string)>, st: Store,
                            user: string,
                            target: Option<string>, ph: Phase) {
    match ph
    case Done(o) => DoneGood(digest, accounts, bad, st, user, target, o)
    case Paused(st1, out, half) => PausedGood(digest, accounts, bad, st, user, target, st1, half)
  }

  /** A handler that goes on from a store it has made itself. */
  lemma GoodFrom(digest: Sha256, accounts: map<string, string>, bad: set<(string, string)>, st: Store, st1: Store,
                 user: string, path: string, ph: Phase)
    requires user in accounts && SameElsewhere(st, st1, user, path)
    requires PhaseGood(digest, accounts, bad, st1, user, Some(path), ph)
    ensures PhaseGood(digest, accounts, bad, st, user, Some(path), ph)
  {
    ElsewhereTransitive(st, st1, if ph.Done? then ph.outcome.store else ph.store, user, path);
  }

  lemma PrefixedGood(digest: Sha256, accounts: map<string, string>, bad: set<(string, string)>, st: Store, user: string,
                     path: string, ph: Phase, reply: Protocol.Reply)
    requires PhaseGood(digest, accounts, bad, st, user, Some(path), ph)
    ensures PhaseGood(digest, accounts, bad, st, user, Some(path), Prefixed(reply, ph))
  {
  }

  /** An entry is dropped. */
  lemma DropGood(digest: Sha256, st: Store, bad: set<(string, string)>, user: string, path: string)
    requires SoundBut(digest, st, bad + {(user, path)})
    ensures var st1 := DropHash(st, user, path);
            SoundBut(digest, st1, bad) && SameElsewhere(st, st1, user, path) && path !in UserIndex(st1, user)
  {
    var st1 := DropHash(st, user, path);
    forall u, p | p in UserIndex(st1, u) ensures (u, p) in bad || Sound(digest, st1, u, p) {
      assert p in UserIndex(st, u) && (u, p) != (user, path);
      assert (u, p) in bad + {(user, path)} || Sound(digest, st, u, p);
    }
  }

  /** A replies and the next request is awaited, or the session ends. */
  lemma AnswerGood(digest: Sha256, accounts: map<string, string>, bad: set<(string, string)>, st: Store, st1: Store,
                   user: string, path: string,
                   reply: Protocol.Reply, next: Next, env: Env)
    requires user in accounts && SoundBut(digest, st1, bad) && SameElsewhere(st, st1, user, path)
    requires (next.ReadRequest? || next.Ended?)
    ensures PhaseGood(digest, accounts, bad, st, user, Some(path), Done(Answer(st1, user, reply, next, env)))
  {
  }

  lemma RemoveGood(digest: Sha256, accounts: map<string, string>, bad: set<(string, string)>, st: Store, user: string,
                   path: string, after: After, env: Env)
    requires GoodAccounts(accounts) && SoundBut(digest, st, bad) && user in accounts && IsRemote(path)
    ensures PhaseGood(digest, accounts, bad, st, user, Some(path),
                      Remove(st, user, FullPath(user, path), path, after, env))
  {
    var full := FullPath(user, path);
    if full !in st.files {
      SoundMore(digest, st, bad, bad + {(user, path)});
      DropGood(digest, st, bad, user, path);
    } else if env.removeOk {
      SoundAfter(digest, st, st.(files := st.files - {full}), user, path, bad, bad + {(user, path)});
    }
  }

  lemma SoundMore(digest: Sha256, st: Store, bad: set<(string, string)>, more: set<(string, string)>)
    requires SoundBut(digest, st, bad) && bad <= more
    ensures SoundBut(digest, st, more)
  {
    forall u, p | p in UserIndex(st, u) ensures (u, p) in more || Sound(digest, st, u, p) {
      assert (u, p) in bad || Sound(digest, st, u, p);
    }
  }

  /** A file is created or written to, that has no entry or an untrue one. */
  lemma WriteGood(digest: Sha256, st: Store, bad: set<(string, string)>, user: string, path: string, content: Bytes)
    requires SlashFree(user) && IsRemote(path) && SoundBut(digest, st, bad)
    requires (path in UserIndex(st, user) ==> (user, path) in bad)
    ensures var st1 := st.(files := st.files[FullPath(user, path) := content]);
            SoundBut(digest, st1, bad) && SameElsewhere(st, st1, user, path)
  {
    SoundAfter(digest, st, st.(files := st.files[FullPath(user, path) := content]), user, path, bad, bad);
  }

  lemma SaveGood(digest: Sha256, st: Store, bad: set<(string, string)>, user: string, path: string, hash: string)
    requires SlashFree(user) && IsRemote(path) && SoundBut(digest, st, bad)
    requires FullPath(user, path) in st.files && hash == Sha(digest, st.files[FullPath(user, path)])
    ensures var st1 := SaveHash(st, user, path, hash); SoundBut(digest, st1, bad) && SameElsewhere(st, st1, user, path)
  {
    SoundAfter(digest, st, SaveHash(st, user, path, hash), user, path, bad, bad);
  }

  lemma ReceiveGood(digest: Sha256, accounts: map<string, string>, bad: set<(string, string)>, st: Store, user: string,
                    path: string, len: int, hash: string, env: Env)
    requires GoodAccounts(accounts) && SoundBut(digest, st, bad) && user in accounts && IsRemote(path)
    requires FullPath(user, path) in st.files && (path in UserIndex(st, user) ==> (user, path) in bad)
    ensures PhaseGood(digest, accounts, bad, st, user, Some(path),
                      ReceivePhase(digest, st, user, FullPath(user, path), path, len, hash, env))
  {
    if len <= 0 && env.closeOk {
      if hash != FileHash(digest, st.files, FullPath(user, path)) {
        RemoveGood(digest, accounts, bad, st, user, path, Mismatched, env);
      } else {
        SaveGood(digest, st, bad, user, path, hash);
        AnswerGood(digest, accounts, bad, st, SaveHash(st, user, path, hash), user, path, Protocol.OkayWith(hash),
                   ReadRequest, env);
      }
    }
  }

  lemma StartGood(digest: Sha256, accounts: map<string, string>, bad: set<(string, string)>, st: Store, user: string,
                  path: string, len: int, hash: string, env: Env)
    requires GoodAccounts(accounts) && SoundBut(digest, st, bad) && user in accounts && IsRemote(path)
    requires path in UserIndex(st, user) ==> (user, path) in bad
    ensures PhaseGood(digest, accounts, bad, st, user, Some(path),
                      StartPhase(digest, st, user, FullPath(user, path), path, len, hash, env))
  {
    var st1 := st.(files := st.files[FullPath(user, path) := ""]);
    WriteGood(digest, st, bad, user, path, "");
    if env.writes > 0 {
      var rest := env.(writes := env.writes - 1);
      var ph := ReceivePhase(digest, st1, user, FullPath(user, path), path, Numbers.ToInt32(len), hash, rest);
      ReceiveGood(digest, accounts, bad, st1, user, path, Numbers.ToInt32(len), hash, rest);
      GoodFrom(digest, accounts, bad, st, st1, user, path, ph);
      PrefixedGood(digest, accounts, bad, st, user, path, ph, Protocol.Okay);
    }
  }

  lemma ReopenGood(digest: Sha256, accounts: map<string, string>, bad: set<(string, string)>, st: Store, user: string,
                   path: string, len: int, hash: string, env: Env)
    requires GoodAccounts(accounts) && SoundBut(digest, st, bad) && user in accounts && IsRemote(path)
    requires path !in UserIndex(st, user)
    ensures PhaseGood(digest, accounts, bad, st, user, Some(path),
                      ReopenPhase(digest, st, user, FullPath(user, path), path, len, hash, env))
  {
    if env.openOk { StartGood(digest, accounts, bad, st, user, path, len, hash, env); }
  }

  /** The second half of a deletion: the entry, untrue until then, goes. */
  lemma ResumeGood(digest: Sha256, accounts: map<string, string>, bad: set<(string, string)>, st: Store, user: string,
                   half: Half, env: Env)
    requires GoodAccounts(accounts) && SoundBut(digest, st, bad + {(user, half.path)}) && user in accounts
    requires IsRemote(half.path)
    ensures PhaseGood(digest, accounts, bad, st, user, Some(half.path), ResumePhase(digest, st, user, half, env))
  {
    var path, st1 := half.path, DropHash(st, user, half.path);
    DropGood(digest, st, bad, user, path);
    if half.after.Replacing? {
      ReopenGood(digest, accounts, bad, st1, user, path, half.after.len, half.after.hash, env);
      GoodFrom(digest, accounts, bad, st, st1, user, path, ResumePhase(digest, st, user, half, env));
    }
  }

  lemma BodyGood(digest: Sha256, accounts: map<string, string>, bad: set<(string, string)>, st: Store, user: string,
                 b: Next, data: Bytes, env: Env)
    requires GoodAccounts(accounts) && SoundBut(digest, st, bad) && user in accounts && b.ReadBody? && IsRemote(b.path)
    requires b.full == FullPath(user, b.path) && b.full in st.files
    requires (b.path in UserIndex(st, user) ==> (user, b.path) in bad)
    ensures PhaseGood(digest, accounts, bad, st, user, Some(b.path), BodyPhase(digest, st, user, b, data, env))
  {
    var st1 := st.(files := AppendTo(st.files, b.full, data));
    WriteGood(digest, st, bad, user, b.path, st.files[b.full] + data);
    ReceiveGood(digest, accounts, bad, st1, user, b.path, b.remaining - |data|, b.hash, env);
    GoodFrom(digest, accounts, bad, st, st1, user, b.path, BodyPhase(digest, st, user, b, data, env));
  }

  /** A handler that changes nothing and answers. */
  lemma SameGood(digest: Sha256, accounts: map<string, string>, bad: set<(string, string)>, st: Store, user: string,
                 target: Option<string>, o: Outcome)
    requires SoundBut(digest, st, bad) && o.store == st && (o.user == user || target.None?)
    requires (o.user == "" || o.user in accounts)
    requires !o.next.ReadBody? && (o.next.SendBody? ==> 0 < o.next.remaining <= |o.next.rest|)
    ensures PhaseGood(digest, accounts, bad, st, user, target, Done(o))
  {
  }

  lemma PutGood(digest: Sha256, accounts: map<string, string>, bad: set<(string, string)>, st: Store, user: string,
                params: seq<string>, env: Env)
    requires GoodAccounts(accounts) && SoundBut(digest, st, bad) && (user == "" || user in accounts)
    requires |params| >= 2 && IsRemote(params[1])
    ensures PhaseGood(digest, accounts, bad, st, user, Some(params[1]), PutPhase(digest, st, user, params, env))
  {
    var path := params[1];
    var full := FullPath(user, path);
    if !IsLogged(user) || |params| < 5 || Numbers.Stol(params[2]).None? || Numbers.Stoi(params[3]).None? {
      SameGood(digest, accounts, bad, st, user, Some(path), HandlePut(digest, st, user, params, env));
    } else {
      var len, hash := Numbers.Stol(params[2]).value, params[4];
      if full in st.files {
        if hash != FileHash(digest, st.files, full) {
          RemoveGood(digest, accounts, bad, st, user, path, Replacing(len, hash), env);
        }
      } else {
        assert path in UserIndex(st, user) ==> (user, path) in bad || Sound(digest, st, user, path);
        StartGood(digest, accounts, bad, st, user, path, len, hash, env);
      }
    }
  }

  lemma DeleteGood(digest: Sha256, accounts: map<string, string>, bad: set<(string, string)>, st: Store, user: string,
                   params: seq<string>, env: Env)
    requires GoodAccounts(accounts) && SoundBut(digest, st, bad) && (user == "" || user in accounts)
    requires |params| >= 2 && IsRemote(params[1])
    ensures PhaseGood(digest, accounts, bad, st, user, Some(params[1]), DeletePhase(st, user, params, env))
  {
    if IsLogged(user) { RemoveGood(digest, accounts, bad, st, user, params[1], Answering, env); }
  }

  lemma GetGood(digest: Sha256, accounts: map<string, string>, bad: set<(string, string)>, st: Store, user: string,
                params: seq<string>, env: Env)
    requires GoodAccounts(accounts) && SoundBut(digest, st, bad) && (user == "" || user in accounts)
    ensures PhaseGood(digest, accounts, bad, st, user, None, Done(HandleGet(st, user, params, env)))
  {
    if |params| == 2 && IsLogged(user) {
      SoundMore(digest, st, bad, bad + {(user, params[1])});
      DropGood(digest, st, bad, user, params[1]);
    }
  }

  lemma LoginGood(digest: Sha256, accounts: map<string, string>, bad: set<(string, string)>, st: Store, user: string,
                  params: seq<string>, env: Env)
    requires SoundBut(digest, st, bad) && (user == "" || user in accounts)
    ensures PhaseGood(digest, accounts, bad, st, user, None, Done(HandleLogin(digest, accounts, st, user, params, env)))
  {
    SameGood(digest, accounts, bad, st, user, None, HandleLogin(digest, accounts, st, user, params, env));
  }

  lemma SnapshotGood(digest: Sha256, accounts: map<string, string>, bad: set<(string, string)>, st: Store, user: string,
                     env: Env)
    requires SoundBut(digest, st, bad) && (user == "" || user in accounts) && Walks(env, st, user)
    ensures PhaseGood(digest, accounts, bad, st, user, None, Done(HandleSnapshot(st, user, env)))
  {
    SameGood(digest, accounts, bad, st, user, None, HandleSnapshot(st, user, env));
  }

  lemma ParamsGood(digest: Sha256, accounts: map<string, string>, bad: set<(string, string)>, st: Store, user: string,
                   params: seq<string>, env: Env)
    requires GoodAccounts(accounts) && SoundBut(digest, st, bad) && (user == "" || user in accounts)
    requires Walks(env, st, user) && (Target(params).Some? ==> IsRemote(Target(params).value))
    ensures PhaseGood(digest, accounts, bad, st, user, Target(params),
                      ParamsPhase(digest, accounts, st, user, params, env))
  {
    if |params| == 0 { return; }
    CommandWords(params[0]);
    match ActionOf(params[0]) {
      case Some(PutAction) =>
        if |params| >= 2 { PutGood(digest, accounts, bad, st, user, params, env); }
        else { SameGood(digest, accounts, bad, st, user, None, HandlePut(digest, st, user, params, env)); }
      case Some(DeleteAction) =>
        if |params| >= 2 { DeleteGood(digest, accounts, bad, st, user, params, env); }
        else { SameGood(digest, accounts, bad, st, user, None, HandleDelete(st, user, params, env)); }
      case Some(GetAction) => GetGood(digest, accounts, bad, st, user, params, env);
      case Some(LoginAction) => LoginGood(digest, accounts, bad, st, user, params, env);
      case Some(SnapshotAction) => SnapshotGood(digest, accounts, bad, st, user, env);
      case _ => SameGood(digest, accounts, bad, st, user, None, HandleParams(digest, accounts, st, user, params, env));
    }
  }

  lemma CommandWords(word: string)
    ensures ActionOf(word) == Some(PutAction) <==> word == "PUT"
    ensures ActionOf(word) == Some(DeleteAction) <==> word == "DELETE"
  {
  }

  /** The target of the handler of an event. */
  ghost function TargetOf(s: Server, e: Event): Option<string>
    requires Enabled(s, e) && IsHandler(e)
  {
    match e
    case Request(id, request, env) => Target(Params(request))
    case Body(id, data, env) => Some(s.sessions[id].next.path)
    case Sent(id) => None
    case Resume(id, env) => Some(s.sessions[id].half.value.path)
  }

  /** The entries that need not be true while a handler runs: those torn, and those of other sessions
      that are half through a deletion. */
  ghost function BadFor(s: Server, id: nat): set<(string, string)> {
    s.torn + Halfway(s.sessions - {id})
  }

  lemma HalfwayWithout(sessions: map<nat, Sess>, id: nat)
    requires id in sessions
    ensures var others := Halfway(sessions - {id});
            Halfway(sessions)
            == if sessions[id].half.Some? then others + {(sessions[id].user, sessions[id].half.value.path)} else others
  {
    var others, all := Halfway(sessions - {id}), Halfway(sessions);
    forall x | x in all && x !in others
      ensures sessions[id].half.Some? && x == (sessions[id].user, sessions[id].half.value.path)
    {
      var i :| i in sessions && sessions[i].half.Some? && x == (sessions[i].user, sessions[i].half.value.path);
      assert i in sessions - {id} <==> i != id;
    }
    forall x | x in others ensures x in all {
      var i :| i in sessions - {id} && (sessions - {id})[i].half.Some?
               && x == ((sessions - {id})[i].user, (sessions - {id})[i].half.value.path);
      assert i in sessions && sessions[i].half.Some?;
    }
    if sessions[id].half.Some? { assert (sessions[id].user, sessions[id].half.value.path) in all; }
  }

  lemma HalfwayWith(sessions: map<nat, Sess>, id: nat, sess: Sess)
    ensures var others := Halfway(sessions - {id});
            Halfway(sessions[id := sess])
              == if sess.half.Some? then others + {(sess.user, sess.half.value.path)} else others
  {
    var after := sessions[id := sess];
    HalfwayWithout(after, id);
    assert after - {id} == sessions - {id};
  }

  /** Every handler is good, from every state of the invariant. */
  lemma HandlerGood(digest: Sha256, accounts: map<string, string>, s: Server, e: Event)
    requires GoodAccounts(accounts) && Inv(digest, accounts, s) && Enabled(s, e) && IsHandler(e)
    ensures PhaseGood(digest, accounts, BadFor(s, e.id), s.store, s.sessions[e.id].user, TargetOf(s, e),
                      PhaseOf(digest, accounts, s, e))
  {
    var sess := s.sessions[e.id];
    var bad := BadFor(s, e.id);
    assert SoundSess(accounts, s.store, s.torn, sess);
    HalfwayWithout(s.sessions, e.id);
    match e {
      case Request(id, request, env) =>
        assert s.torn + Halfway(s.sessions) == bad;
        ParamsGood(digest, accounts, bad, s.store, sess.user, Params(request), env);
      case Body(id, data, env) =>
        assert s.torn + Halfway(s.sessions) == bad;
        BodyGood(digest, accounts, bad, s.store, sess.user, sess.next, data, env);
      case Sent(id) =>
        assert s.torn + Halfway(s.sessions) == bad;
        SameGood(digest, accounts, bad, s.store, sess.user, None, OnSent(s.store, sess.user, sess.next));
      case Resume(id, env) =>
        assert s.torn + Halfway(s.sessions) == bad + {(sess.user, sess.half.value.path)};
        ResumeGood(digest, accounts, bad, s.store, sess.user, sess.half.value, env);
    }
  }

  /** What a handler leaves of another session. */
  lemma OtherStaysSound(digest: Sha256, accounts: map<string, string>, s: Server, e: Event, id: nat)
    requires GoodAccounts(accounts) && Inv(digest, accounts, s) && Enabled(s, e) && IsHandler(e)
    requires id in s.sessions && id != e.id && !Ends(digest, accounts, s, e)
    ensures SoundSess(accounts, StoreAfter(digest, accounts, s, e), Step(digest, accounts, s, e).torn, s.sessions[id])
  {
    HandlerGood(digest, accounts, s, e);
    var other, user := s.sessions[id], s.sessions[e.id].user;
    var st1, t := StoreAfter(digest, accounts, s, e), Step(digest, accounts, s, e);
    assert SoundSess(accounts, s.store, s.torn, other);
    assert SoundSess(accounts, s.store, s.torn, s.sessions[e.id]);
    assert t.sessions[id] == other;
    if other.half.None? && other.next.ReadBody? {
      var x := (other.user, other.next.path);
      assert Received(t.sessions, x);
      OtherFile(digest, accounts, s, e, id, other.next.path);
      if other.next.path in UserIndex(st1, other.user) { assert x in s.torn && x in t.torn; }
    } else if other.half.Some? {
      OtherFile(digest, accounts, s, e, id, other.half.value.path);
    }
  }

  /** The file another session is receiving or deleting is not touched, nor given an entry. */
  lemma OtherFile(digest: Sha256, accounts: map<string, string>, s: Server, e: Event, id: nat, path: string)
    requires GoodAccounts(accounts) && Inv(digest, accounts, s) && Enabled(s, e) && IsHandler(e)
    requires id in s.sessions && id != e.id && IsRemote(path) && s.sessions[id].user in accounts
    requires Claim(s.sessions[id]) == Some(FullPath(s.sessions[id].user, path))
    requires PhaseGood(digest, accounts, BadFor(s, e.id), s.store, s.sessions[e.id].user, TargetOf(s, e),
                       PhaseOf(digest, accounts, s, e))
    ensures var other, st1 := s.sessions[id], StoreAfter(digest, accounts, s, e);
            && (FullPath(other.user, path) in st1.files <==> FullPath(other.user, path) in s.store.files)
            && (path in UserIndex(st1, other.user) ==> path in UserIndex(s.store, other.user))
  {
    var target := TargetOf(s, e);
    if target.Some? { OwnClaim(digest, accounts, s, e, id); }
    ConfinedFile(s.store, StoreAfter(digest, accounts, s, e), s.sessions[e.id].user, target, s.sessions[id].user, path);
  }

  lemma ConfinedFile(st: Store, st1: Store, user: string, target: Option<string>, other: string, path: string)
    requires Confined(st, st1, user, target)
    requires target.Some? ==> FullPath(other, path) != FullPath(user, target.value)
    ensures FullPath(other, path) in st1.files <==> FullPath(other, path) in st.files
    ensures path in UserIndex(st1, other) ==> path in UserIndex(st, other)
  {
    if target.Some? && other == user {
      assert path in UserIndex(st1, user) ==> path in UserIndex(st1, user) - {target.value};
    }
  }

  lemma StillTornProps(digest: Sha256, st: Store, sessions: map<nat, Sess>, among: set<(string, string)>,
                       x: (string, string))
    requires x in among && x.1 in UserIndex(st, x.0) && x !in StillTorn(digest, st, sessions, among)
    ensures Sound(digest, st, x.0, x.1)
  {
  }

  /** What a step leaves torn or half done covers all that is untrue. */
  lemma StepSound(digest: Sha256, accounts: map<string, string>, s: Server, e: Event)
    requires GoodAccounts(accounts) && Inv(digest, accounts, s) && Enabled(s, e)
    ensures var t := Step(digest, accounts, s, e); SoundBut(digest, t.store, t.torn + Halfway(t.sessions))
  {
    var t := Step(digest, accounts, s, e);
    var bad := s.torn + Halfway(s.sessions);
    if IsHandler(e) {
      HandlerGood(digest, accounts, s, e);
      HalfwayWithout(s.sessions, e.id);
      if Ends(digest, accounts, s, e) {
        SoundMore(digest, t.store, BadFor(s, e.id), bad);
        Covered(digest, t, bad);
      } else {
        HandledCovers(digest, accounts, s, e);
      }
    } else if e.End? {
      Covered(digest, t, bad);
    } else {
      OpenedOrClosed(digest, accounts, s, e);
      Covered(digest, t, bad);
    }
  }

  lemma OpenedOrClosed(digest: Sha256, accounts: map<string, string>, s: Server, e: Event)
    requires Enabled(s, e) && (e.Accept? || e.Drop?)
    ensures Halfway(Step(digest, accounts, s, e).sessions) == Halfway(s.sessions)
  {
    if e.Accept? {
      HalfwayWith(s.sessions, e.id, Sess("", ReadRequest, None));
      assert s.sessions - {e.id} == s.sessions;
    } else {
      HalfwayWithout(s.sessions, e.id);
    }
  }

  /** Dropping from what was torn what is true again leaves nothing out. */
  lemma Covered(digest: Sha256, t: Server, bad: set<(string, string)>)
    requires SoundBut(digest, t.store, bad)
    requires exists among :: t.torn == StillTorn(digest, t.store, t.sessions, among)
                             && bad <= among + Halfway(t.sessions)
    ensures SoundBut(digest, t.store, t.torn + Halfway(t.sessions))
  {
    var among :| t.torn == StillTorn(digest, t.store, t.sessions, among) && bad <= among + Halfway(t.sessions);
    forall u, p | p in UserIndex(t.store, u)
      ensures (u, p) in t.torn + Halfway(t.sessions) || Sound(digest, t.store, u, p)
    {
      assert (u, p) in bad || Sound(digest, t.store, u, p);
      if (u, p) in among && (u, p) !in t.torn { StillTornProps(digest, t.store, t.sessions, among, (u, p)); }
    }
  }

  lemma HandledCovers(digest: Sha256, accounts: map<string, string>, s: Server, e: Event)
    requires GoodAccounts(accounts) && Inv(digest, accounts, s) && Enabled(s, e) && IsHandler(e)
    requires !Ends(digest, accounts, s, e)
    requires PhaseGood(digest, accounts, BadFor(s, e.id), s.store, s.sessions[e.id].user, TargetOf(s, e),
                       PhaseOf(digest, accounts, s, e))
    ensures var t := Step(digest, accounts, s, e); SoundBut(digest, t.store, t.torn + Halfway(t.sessions))
  {
    var t, bad := Step(digest, accounts, s, e), BadFor(s, e.id);
    match PhaseOf(digest, accounts, s, e) {
      case Paused(st, out, half) =>
        HalfwayWith(s.sessions, e.id, Sess(s.sessions[e.id].user, Ended, Some(half)));
        Covered(digest, t, bad + {(s.sessions[e.id].user, half.path)});
      case Done(o) =>
        if !o.next.Ended? { HalfwayWith(s.sessions, e.id, Sess(o.user, o.next, None)); }
        Covered(digest, t, bad);
    }
  }

  /** The session whose handler has run. */
  lemma OwnStaysSound(digest: Sha256, accounts: map<string, string>, s: Server, e: Event)
    requires GoodAccounts(accounts) && Inv(digest, accounts, s) && Enabled(s, e) && IsHandler(e)
    requires e.id in Step(digest, accounts, s, e).sessions
    ensures var t := Step(digest, accounts, s, e);
            SoundSess(accounts, t.store, t.torn, t.sessions[e.id])
            && (Claim(t.sessions[e.id]).Some? ==>
                  TargetOf(s, e).Some?
                  && Claim(t.sessions[e.id]) == Some(FullPath(s.sessions[e.id].user, TargetOf(s, e).value)))
  {
    HandlerGood(digest, accounts, s, e);
    assert SoundSess(accounts, s.store, s.torn, s.sessions[e.id]);
    var t, user := Step(digest, accounts, s, e), s.sessions[e.id].user;
    var sess := t.sessions[e.id];
    if sess.half.None? && sess.next.ReadBody? {
      var x := (user, sess.next.path);
      assert Received(t.sessions, x);
      if sess.next.path in UserIndex(t.store, user) {
        NotHalfway(digest, accounts, s, e, sess.next.path);
        assert x in s.torn;
      }
    }
  }

  /** No other session is half through a deletion of the target of a handler. */
  lemma NotHalfway(digest: Sha256, accounts: map<string, string>, s: Server, e: Event, path: string)
    requires Inv(digest, accounts, s) && Enabled(s, e) && IsHandler(e) && TargetOf(s, e) == Some(path)
    ensures (s.sessions[e.id].user, path) !in Halfway(s.sessions - {e.id})
  {
    var user := s.sessions[e.id].user;
    assert SoundSess(accounts, s.store, s.torn, s.sessions[e.id]);
    forall i | i in s.sessions - {e.id} && s.sessions[i].half.Some?
      ensures (s.sessions[i].user, s.sessions[i].half.value.path) != (user, path)
    {
      assert Claim(s.sessions[i]) != Some(FullPath(user, path));
    }
  }

  lemma StepSessions(digest: Sha256, accounts: map<string, string>, s: Server, e: Event)
    requires GoodAccounts(accounts) && Inv(digest, accounts, s) && Enabled(s, e)
    ensures SessionsSound(accounts, Step(digest, accounts, s, e)) && ClaimsDiffer(Step(digest, accounts, s, e).sessions)
  {
    var t := Step(digest, accounts, s, e);
    if IsHandler(e) && !Ends(digest, accounts, s, e) {
      forall id | id in t.sessions ensures SoundSess(accounts, t.store, t.torn, t.sessions[id]) {
        if id == e.id { OwnStaysSound(digest, accounts, s, e); } else { OtherStaysSound(digest, accounts, s, e, id); }
      }
      HandledClaims(digest, accounts, s, e);
    } else if !IsHandler(e) {
      IdleSteps(digest, accounts, s, e);
    }
  }

  lemma HandledClaims(digest: Sha256, accounts: map<string, string>, s: Server, e: Event)
    requires GoodAccounts(accounts) && Inv(digest, accounts, s) && Enabled(s, e) && IsHandler(e)
    requires !Ends(digest, accounts, s, e)
    ensures ClaimsDiffer(Step(digest, accounts, s, e).sessions)
  {
    var t := Step(digest, accounts, s, e);
    forall j | j in t.sessions && j != e.id ensures j in s.sessions && t.sessions[j] == s.sessions[j] { }
    if e.id in t.sessions {
      OwnStaysSound(digest, accounts, s, e);
      forall j | j in t.sessions && j != e.id && Claim(t.sessions[e.id]).Some?
        ensures Claim(t.sessions[j]) != Claim(t.sessions[e.id])
      {
        OwnClaim(digest, accounts, s, e, j);
      }
    }
  }

  lemma OwnClaim(digest: Sha256, accounts: map<string, string>, s: Server, e: Event, j: nat)
    requires Inv(digest, accounts, s) && Enabled(s, e) && IsHandler(e) && TargetOf(s, e).Some? && j in s.sessions
    requires j != e.id
    ensures Claim(s.sessions[j]) != Some(FullPath(s.sessions[e.id].user, TargetOf(s, e).value))
  {
    assert SoundSess(accounts, s.store, s.torn, s.sessions[e.id]);
  }

  lemma IdleSteps(digest: Sha256, accounts: map<string, string>, s: Server, e: Event)
    requires Inv(digest, accounts, s) && Enabled(s, e) && !IsHandler(e)
    ensures SessionsSound(accounts, Step(digest, accounts, s, e)) && ClaimsDiffer(Step(digest, accounts, s, e).sessions)
  {
    var t := Step(digest, accounts, s, e);
    forall id | id in t.sessions ensures SoundSess(accounts, t.store, t.torn, t.sessions[id]) {
      if id in s.sessions {
        var sess := s.sessions[id];
        assert SoundSess(accounts, s.store, s.torn, sess) && t.sessions[id] == sess;
        if sess.half.None? && sess.next.ReadBody? { assert Received(t.sessions, (sess.user, sess.next.path)); }
      }
    }
  }

  lemma StepTorn(digest: Sha256, accounts: map<string, string>, s: Server, e: Event)
    requires GoodAccounts(accounts) && Inv(digest, accounts, s) && Enabled(s, e)
    ensures TornLeft(digest, accounts, Step(digest, accounts, s, e))
  {
    forall x | x in Halfway(s.sessions) ensures x.0 in accounts && IsRemote(x.1) {
      var id :| id in s.sessions && s.sessions[id].half.Some?
                && x == (s.sessions[id].user, s.sessions[id].half.value.path);
      assert SoundSess(accounts, s.store, s.torn, s.sessions[id]);
    }
  }

  /** One step of any session keeps the invariant, and so does an end of the process. */
  lemma StepKeepsInv(digest: Sha256, accounts: map<string, string>, s: Server, e: Event)
    requires GoodAccounts(accounts) && Inv(digest, accounts, s) && Enabled(s, e)
    ensures Inv(digest, accounts, Step(digest, accounts, s, e))
  {
    StepSound(digest, accounts, s, e);
    StepSessions(digest, accounts, s, e);
    StepTorn(digest, accounts, s, e);
  }

  ghost predicate Initial(digest: Sha256, s: Server) {
    s.sessions == map[] && s.torn == {} && SoundBut(digest, s.store, {})
  }

  lemma {:induction false} InvHolds(digest: Sha256, accounts: map<string, string>, ss: seq<Server>, es: seq<Event>,
                                    n: nat)
    requires GoodAccounts(accounts) && IsRun(digest, accounts, ss, es) && Initial(digest, ss[0]) && n <= |es|
    ensures Inv(digest, accounts, ss[n])
  {
    if n > 0 {
      var s, e := ss[n - 1], es[n - 1];
      assert Enabled(s, e) && ss[n - 1 + 1] == Step(digest, accounts, s, e);
      InvHolds(digest, accounts, ss, es, n - 1);
      StepKeepsInv(digest, accounts, s, e);
    } else {
      assert ss[0].torn + Halfway(ss[0].sessions) == {};
    }
  }

  /** The store invariant, exactly: in every reachable state, mid-transfer, after a mismatch, a
      replacement, a dropped connection or an end of the process included, an index entry that no
      session is receiving a file for is untrue if and only if a session has removed its file and not
      yet the entry, or the process has ended there and the entry was left. */
  lemma IndexIsTrue(digest: Sha256, accounts: map<string, string>, ss: seq<Server>, es: seq<Event>, n: nat, u: string,
                    p: string)
    requires GoodAccounts(accounts) && IsRun(digest, accounts, ss, es) && Initial(digest, ss[0]) && n <= |es|
    requires p in UserIndex(ss[n].store, u)
    ensures !Sound(digest, ss[n].store, u, p) ==> (u, p) in Halfway(ss[n].sessions) || (u, p) in ss[n].torn
    ensures (u, p) in Halfway(ss[n].sessions) ==> !Sound(digest, ss[n].store, u, p)
    ensures (u, p) in ss[n].torn && !Received(ss[n].sessions, (u, p)) ==> !Sound(digest, ss[n].store, u, p)
    ensures Received(ss[n].sessions, (u, p)) ==> (u, p) in ss[n].torn
  {
    InvHolds(digest, accounts, ss, es, n);
    UntrueExactly(digest, accounts, ss[n], u, p);
  }

  lemma UntrueExactly(digest: Sha256, accounts: map<string, string>, s: Server, u: string, p: string)
    requires Inv(digest, accounts, s) && p in UserIndex(s.store, u)
    ensures !Sound(digest, s.store, u, p) ==> (u, p) in Halfway(s.sessions) || (u, p) in s.torn
    ensures (u, p) in Halfway(s.sessions) ==> !Sound(digest, s.store, u, p)
    ensures (u, p) in s.torn && !Received(s.sessions, (u, p)) ==> !Sound(digest, s.store, u, p)
    ensures Received(s.sessions, (u, p)) ==> (u, p) in s.torn
  {
    assert (u, p) in s.torn + Halfway(s.sessions) || Sound(digest, s.store, u, p);
    if (u, p) in Halfway(s.sessions) {
      var id :| id in s.sessions && s.sessions[id].half.Some?
                && (u, p) == (s.sessions[id].user, s.sessions[id].half.value.path);
      assert SoundSess(accounts, s.store, s.torn, s.sessions[id]);
    }
    if Received(s.sessions, (u, p)) {
      var id :| id in s.sessions && s.sessions[id].half.None? && s.sessions[id].next.ReadBody?
                && s.sessions[id].user == u && s.sessions[id].next.path == p;
      assert SoundSess(accounts, s.store, s.torn, s.sessions[id]);
    }
  }

  /** As long as the process does not end, nothing is torn: an entry is untrue if and only if a session
      is half through the deletion of its path. */
  lemma {:induction false} IndexIsTrueWhileUp(digest: Sha256, accounts: map<string, string>, ss: seq<Server>,
                                              es: seq<Event>, n: nat)
    requires GoodAccounts(accounts) && IsRun(digest, accounts, ss, es) && Initial(digest, ss[0]) && n <= |es|
    requires forall i :: 0 <= i < n ==> Enabled(ss[i], es[i]) && !Ends(digest, accounts, ss[i], es[i])
    ensures ss[n].torn == {}
    ensures forall u, p :: p in UserIndex(ss[n].store, u) ==>
              (!Sound(digest, ss[n].store, u, p) <==> (u, p) in Halfway(ss[n].sessions))
  {
    if n > 0 {
      IndexIsTrueWhileUp(digest, accounts, ss, es, n - 1);
      assert Enabled(ss[n - 1], es[n - 1]) && ss[n - 1 + 1] == Step(digest, accounts, ss[n - 1], es[n - 1]);
    }
    InvHolds(digest, accounts, ss, es, n);
    forall u, p | p in UserIndex(ss[n].store, u)
      ensures !Sound(digest, ss[n].store, u, p) <==> (u, p) in Halfway(ss[n].sessions)
    {
      UntrueExactly(digest, accounts, ss[n], u, p);
    }
  }

  /** What is left when the process ends: the same store, and for every deletion that was half done its
      entry, if there was one, without a file. */
  lemma EndLeaves(digest: Sha256, accounts: map<string, string>, s: Server, u: string, p: string)
    requires GoodAccounts(accounts) && Inv(digest, accounts, s) && p in UserIndex(s.store, u)
    ensures var t := Step(digest, accounts, s, End);
            && t.store == s.store && t.sessions == map[]
            && ((u, p) in t.torn <==> !Sound(digest, s.store, u, p))
            && ((u, p) in Halfway(s.sessions) ==> (u, p) in t.torn && FullPath(u, p) !in t.store.files)
  {
    var t := Step(digest, accounts, s, End);
    UntrueExactly(digest, accounts, s, u, p);
    assert !Received(t.sessions, (u, p));
    if (u, p) in Halfway(s.sessions) {
      var id :| id in s.sessions && s.sessions[id].half.Some?
                && (u, p) == (s.sessions[id].user, s.sessions[id].half.value.path);
      assert SoundSess(accounts, s.store, s.torn, s.sessions[id]);
    }
  }

  /** That it comes to this: a DELETE of a file that is indexed stops, for everybody to see, where the
      entry has no file, and an end of the process there leaves it so. */
  lemma DeletionCanTear(digest: Sha256, accounts: map<string, string>, s: Server, id: nat, request: Bytes, env: Env)
    requires GoodAccounts(accounts) && Inv(digest, accounts, s) && Enabled(s, Event.Request(id, request, env))
    requires env.removeOk
    requires var params, user := Params(request), s.sessions[id].user;
             |params| >= 2 && params[0] == "DELETE" && IsLogged(user) && params[1] in UserIndex(s.store, user)
             && FullPath(user, params[1]) in s.store.files
    ensures var t := Step(digest, accounts, s, Event.Request(id, request, env));
            var x := (s.sessions[id].user, Params(request)[1]);
            && x.1 in UserIndex(t.store, x.0) && x in Halfway(t.sessions) && !Sound(digest, t.store, x.0, x.1)
            && x in Step(digest, accounts, t, End).torn
  {
    var e := Event.Request(id, request, env);
    var t, user, path := Step(digest, accounts, s, e), s.sessions[id].user, Params(request)[1];
    StepKeepsInv(digest, accounts, s, e);
    assert t.sessions[id] == Sess(user, Ended, Some(Half(path, Answering)));
    assert (user, path) in Halfway(t.sessions);
    EndLeaves(digest, accounts, t, user, path);
  }

  /** What mends a torn entry: a GET of it drops it, when it finds no file. */
  lemma GetMends(st: Store, user: string, params: seq<string>, env: Env)
    requires IsLogged(user) && |params| == 2 && GetHash(st, user, params[1]) != ""
    requires FullPath(user, params[1]) !in st.files
    ensures params[1] !in UserIndex(HandleGet(st, user, params, env).store, user)
  {
  }

  /** So does a DELETE. */
  lemma DeleteMends(st: Store, user: string, params: seq<string>, env: Env)
    requires IsLogged(user) && |params| >= 2 && FullPath(user, params[1]) !in st.files
    ensures DeletePhase(st, user, params, env).Done?
    ensures params[1] !in UserIndex(DeletePhase(st, user, params, env).outcome.store, user)
  {
  }

  /** What belongs to a user. */
  ghost predicate SameFor(user: string, st: Store, st1: Store) {
    && UserIndex(st1, user) == UserIndex(st, user)
    && forall p :: IsRemote(p) ==>
         (FullPath(user, p) in st.files <==> FullPath(user, p) in st1.files)
         && (FullPath(user, p) in st.files ==> st1.files[FullPath(user, p)] == st.files[FullPath(user, p)])
  }

  /** The user on whose behalf an event happens; "" before a login. */
  function Actor(s: Server, e: Event): string {
    if !e.End? && e.id in s.sessions then s.sessions[e.id].user else ""
  }

  lemma StepFrame(digest: Sha256, accounts: map<string, string>, s: Server, e: Event, user: string)
    requires GoodAccounts(accounts) && Inv(digest, accounts, s) && Enabled(s, e)
    requires SlashFree(user) && Actor(s, e) != user
    ensures SameFor(user, s.store, Step(digest, accounts, s, e).store)
  {
    if IsHandler(e) {
      HandlerGood(digest, accounts, s, e);
      var target, st1 := TargetOf(s, e), StoreAfter(digest, accounts, s, e);
      assert SoundSess(accounts, s.store, s.torn, s.sessions[e.id]);
      if target.Some? && st1 != s.store {
        forall p | IsRemote(p) ensures FullPath(user, p) != FullPath(Actor(s, e), target.value) {
          FullPathInjective(user, p, Actor(s, e), target.value);
        }
      }
    }
  }

  lemma SameForTransitive(user: string, a: Store, b: Store, c: Store)
    requires SameFor(user, a, b) && SameFor(user, b, c)
    ensures SameFor(user, a, c)
  {
  }

  /** The multi-user frame, over whole runs: as long as no session logged in as `user` takes a step,
      the files and the index of `user` stay exactly as they are, whatever everybody else does. */
  lemma {:induction false} UsersAreSeparate(digest: Sha256, accounts: map<string, string>, ss: seq<Server>,
                                            es: seq<Event>, user: string, n: nat)
    requires GoodAccounts(accounts) && IsRun(digest, accounts, ss, es) && Initial(digest, ss[0]) && n <= |es|
    requires SlashFree(user) && forall i :: 0 <= i < n ==> Actor(ss[i], es[i]) != user
    ensures SameFor(user, ss[0].store, ss[n].store)
  {
    if n > 0 {
      var s, e := ss[n - 1], es[n - 1];
      assert Enabled(s, e) && ss[n - 1 + 1] == Step(digest, accounts, s, e);
      UsersAreSeparate(digest, accounts, ss, es, user, n - 1);
      InvHolds(digest, accounts, ss, es, n - 1);
      StepFrame(digest, accounts, s, e, user);
      SameForTransitive(user, ss[0].store, s.store, ss[n].store);
    }
  }

  /** Nothing before a login: if every session that acts is anonymous, the store does not change. */
  lemma {:induction false} AnonymousChangesNothing(digest: Sha256, accounts: map<string, string>, ss: seq<Server>,
                                                   es: seq<Event>, n: nat)
    requires GoodAccounts(accounts) && IsRun(digest, accounts, ss, es) && Initial(digest, ss[0]) && n <= |es|
    requires forall i :: 0 <= i < n ==> Actor(ss[i], es[i]) == ""
    ensures ss[n].store == ss[0].store
  {
    if n > 0 {
      var s, e := ss[n - 1], es[n - 1];
      assert Enabled(s, e) && ss[n - 1 + 1] == Step(digest, accounts, s, e);
      AnonymousChangesNothing(digest, accounts, ss, es, n - 1);
      InvHolds(digest, accounts, ss, es, n - 1);
      AnonymousStep(digest, accounts, s, e);
    }
  }

  lemma AnonymousStep(digest: Sha256, accounts: map<string, string>, s: Server, e: Event)
    requires GoodAccounts(accounts) && Inv(digest, accounts, s) && Enabled(s, e) && Actor(s, e) == ""
    ensures Step(digest, accounts, s, e).store == s.store
  {
    if IsHandler(e) {
      HandlerGood(digest, accounts, s, e);
      assert SoundSess(accounts, s.store, s.torn, s.sessions[e.id]);
    }
  }

  /** Sessions come without a user, and go; neither touches the store. The end of the process takes all. */
  lemma ComeAndGo(digest: Sha256, accounts: map<string, string>, s: Server, id: nat)
    ensures id !in s.sessions ==>
              && Enabled(s, Accept(id)) && Step(digest, accounts, s, Accept(id)).store == s.store
              && Step(digest, accounts, s, Accept(id)).sessions == s.sessions[id := Sess("", ReadRequest, None)]
    ensures id in s.sessions && s.sessions[id].half.None? ==>
              && Enabled(s, Drop(id)) && Step(digest, accounts, s, Drop(id)).store == s.store
              && Step(digest, accounts, s, Drop(id)).sessions == s.sessions - {id}
    ensures Step(digest, accounts, s, End).store == s.store && Step(digest, accounts, s, End).sessions == map[]
  {
  }

  /** A session acts for a user only after a LOGIN with that user's password. */
  lemma LoginNeedsPassword(digest: Sha256, accounts: map<string, string>, s: Server, e: Event)
    requires Enabled(s, e) && !e.End? && e.id in s.sessions && e.id in Step(digest, accounts, s, e).sessions
    requires Step(digest, accounts, s, e).sessions[e.id].user != s.sessions[e.id].user
    ensures e.Request? && |Params(e.request)| >= 3 && Params(e.request)[0] == "LOGIN"
    ensures var user := Step(digest, accounts, s, e).sessions[e.id].user;
            user == Params(e.request)[1] && user in accounts
            && accounts[user] == Sha(digest, Params(e.request)[2] + "pdsproject201920")
  {
    var user := s.sessions[e.id].user;
    match e {
      case Request(id, request, env) => OnlyLoginSetsUser(digest, accounts, s.store, user, Params(request), env);
      case Body(id, data, env) => BodyKeepsUser(digest, s.store, user, s.sessions[id].next, data, env);
      case Resume(id, env) => ResumeKeepsUser(digest, s.store, user, s.sessions[id].half.value, env);
      case _ =>
    }
  }

  /** And a LOGIN that can be answered makes the session act for its user with the right password, and
      ends it with any other. */
  lemma LoginTakesEffect(digest: Sha256, accounts: map<string, string>, s: Server, e: Event)
    requires Enabled(s, e) && e.Request? && e.env.writes >= 1
    requires |Params(e.request)| >= 3 && Params(e.request)[0] == "LOGIN"
    ensures var t, name := Step(digest, accounts, s, e), Params(e.request)[1];
            if name in accounts && accounts[name] == Sha(digest, Params(e.request)[2] + "pdsproject201920") then
              t.sessions == s.sessions[e.id := Sess(name, ReadRequest, None)] && t.store == s.store
            else t.sessions == s.sessions - {e.id} && t.store == s.store
  {
    var params := Params(e.request);
    assert |Sha(digest, params[2] + SALT)| == 64;
    var o := HandleLogin(digest, accounts, s.store, s.sessions[e.id].user, params, e.env);
    assert PhaseOf(digest, accounts, s, e) == Done(o);
  }

  /** The user of a session after a phase of a handler. */
  function UserAfter(user: string, ph: Phase): string {
    if ph.Done? then ph.outcome.user else user
  }

  lemma OnlyLoginSetsUser(digest: Sha256, accounts: map<string, string>, st: Store, user: string, params: seq<string>,
                          env: Env)
    requires Walks(env, st, user)
    ensures var user1 := UserAfter(user, ParamsPhase(digest, accounts, st, user, params, env));
            user1 != user ==>
              |params| >= 3 && params[0] == "LOGIN" && user1 == params[1] && user1 in accounts
              && accounts[user1] == Sha(digest, params[2] + "pdsproject201920")
  {
    if |params| == 0 { return; }
    CommandWords(params[0]);
    match ActionOf(params[0]) {
      case Some(PutAction) => PutKeepsUser(digest, st, user, params, env);
      case Some(LoginAction) => LoginSetsUser(digest, accounts, st, user, params, env);
      case _ =>
    }
  }

  lemma LoginSetsUser(digest: Sha256, accounts: map<string, string>, st: Store, user: string, params: seq<string>,
                      env: Env)
    ensures var user1 := HandleLogin(digest, accounts, st, user, params, env).user;
            user1 != user ==>
              |params| >= 3 && user1 == params[1] && user1 in accounts
              && accounts[user1] == Sha(digest, params[2] + "pdsproject201920")
  {
  }

  lemma PutKeepsUser(digest: Sha256, st: Store, user: string, params: seq<string>, env: Env)
    ensures UserAfter(user, PutPhase(digest, st, user, params, env)) == user
  {
  }

  lemma BodyKeepsUser(digest: Sha256, st: Store, user: string, b: Next, data: Bytes, env: Env)
    requires b.ReadBody?
    ensures UserAfter(user, BodyPhase(digest, st, user, b, data, env)) == user
  {
  }

  lemma ResumeKeepsUser(digest: Sha256, st: Store, user: string, half: Half, env: Env)
    ensures UserAfter(user, ResumePhase(digest, st, user, half, env)) == user
  {
  }
}

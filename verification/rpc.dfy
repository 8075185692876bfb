/** The protocol with the wire taken away: what one exchange between a client and the server does to
    the two of them, as one step. Module Lockstep proves that the byte streams implement it. */
module Rpc {
  import opened Wire
  import opened Numbers
  import opened Hashing
  import opened Nodes
  import opened Stores
  import opened Protocol
  import opened SharedMaps
  import opened Sessions
  import opened Clients
  import opened Snapshots

  /** Client and server between two exchanges: the user of the session, what the server keeps, the
      client's mirror of the remote keys, and the client's files by local key. */
  datatype World = World(user: string, store: Store, mirror: Mirror, local: map<string, Bytes>)

  datatype Call = Login(name: string, pwd: string) | Do(req: Request)

  function KeyOf(call: Call): string
    requires call.Do?
  {
    call.req.node.AbsolutePath()
  }

  /** The store when a PUT has been told to go on: no file content yet, and no entry. */
  function Opened(st: Store, user: string, key: string): Store {
    var full := FullPath(user, key);
    var st1 := if full in st.files then DropHash(st.(files := st.files - {full}), user, key) else st;
    st1.(files := st1.files[full := ""])
  }

  /** The store when the body has arrived: kept and indexed if it is what was declared, else gone. */
  function Closed(digest: Sha256, st: Store, user: string, key: string, hash: string, body: Bytes): Store {
    var full := FullPath(user, key);
    if hash == Sha(digest, body) then SaveHash(st.(files := st.files[full := body]), user, key, hash)
    else DropHash(st.(files := st.files - {full}), user, key)
  }

  predicate AlreadyThere(digest: Sha256, st: Store, user: string, key: string, hash: string) {
    FullPath(user, key) in st.files && hash == Sha(digest, st.files[FullPath(user, key)])
  }

  function Put(digest: Sha256, w: World, node: Node, body: Bytes): World
    requires |node.hashes| > 0
  {
    var key, hash := node.AbsolutePath(), node.LastHash();
    if AlreadyThere(digest, w.store, w.user, key, hash) then
      w.(mirror := InsertNew(w.mirror, key, node))
    else
      var st := Closed(digest, Opened(w.store, w.user, key), w.user, key, hash, body);
      if hash == Sha(digest, body) then w.(store := st, mirror := InsertNew(w.mirror, key, node))
      else w.(store := st)
  }

  /** The server has something to send for `key`. */
  predicate Served(w: World, key: string) {
    GetHash(w.store, w.user, key) != "" && FullPath(w.user, key) in w.store.files
  }

  function Get(digest: Sha256, w: World, node: Node): World {
    var key := node.AbsolutePath();
    if Served(w, key) then
      var content := w.store.files[FullPath(w.user, key)];
      w.(local := w.local[LocalKey(key) := content],
         mirror := InsertNew(w.mirror, key, node.SetLastHash(Sha(digest, content))))
    else
      w.(store := if GetHash(w.store, w.user, key) != "" then DropHash(w.store, w.user, key) else w.store,
         mirror := w.mirror - {key})
  }

  function Delete(w: World, node: Node): World {
    var key := node.AbsolutePath();
    var full := FullPath(w.user, key);
    if full in w.store.files then
      w.(store := DropHash(w.store.(files := w.store.files - {full}), w.user, key), mirror := w.mirror - {key})
    else
      w.(store := DropHash(w.store, w.user, key))
  }

  function Snapshot(w: World): World {
    w.(mirror := SnapshotMap(UserIndex(w.store, w.user)) + w.mirror)
  }

  /** One exchange; `body` is what a PUT put on the wire after its header. */
  function Exchange(digest: Sha256, w: World, call: Call, body: Bytes): World
    requires call.Do? && call.req.verb.PUT? ==> |call.req.node.hashes| > 0
  {
    match call
    case Login(name, pwd) => w.(user := name)
    case Do(Request(PUT, node)) => Put(digest, w, node, body)
    case Do(Request(GET, node)) => Get(digest, w, node)
    case Do(Request(DELETE, node)) => Delete(w, node)
    case Do(Request(SNAPSHOT, node)) => Snapshot(w)
    case Do(Request(PATCH, node)) => w
  }

  /** Every key of the user's index is a key of the mirror. */
  ghost predicate Covers(w: World) {
    UserIndex(w.store, w.user).Keys <= w.mirror.Keys
  }

  /** No entry of the user's index is the empty string, which reads as no entry. */
  ghost predicate Entered(w: World) {
    forall k :: k in UserIndex(w.store, w.user) ==> UserIndex(w.store, w.user)[k] != ""
  }

  /** Mirror covers index: a snapshot establishes it, whatever there was before, and every other
      exchange keeps it, error replies included. */
  lemma CoversKept(digest: Sha256, w: World, call: Call, body: Bytes)
    requires call.Do? && (call.req.verb.PUT? ==> |call.req.node.hashes| > 0)
    requires Entered(w)
    ensures Entered(Exchange(digest, w, call, body))
    ensures call.req.verb.SNAPSHOT? || Covers(w) ==> Covers(Exchange(digest, w, call, body))
  {
    match call.req.verb {
      case PUT => PutCovers(digest, w, call.req.node, body);
      case GET => GetCovers(digest, w, call.req.node);
      case DELETE => DeleteCovers(w, call.req.node);
      case _ =>
    }
  }

  /** What a PUT leaves in the index of its user: nothing new but an entry for its key, which is then
      the declared hash and matches what arrived. */
  lemma PutIndex(digest: Sha256, w: World, node: Node, body: Bytes, k: string)
    requires |node.hashes| > 0 && k in UserIndex(Put(digest, w, node, body).store, w.user)
    ensures var before, after := UserIndex(w.store, w.user), UserIndex(Put(digest, w, node, body).store, w.user);
            || (k in before && after[k] == before[k])
            || (k == node.AbsolutePath() && after[k] == node.LastHash() == Sha(digest, body))
  {
    var path := node.AbsolutePath();
    if k != path { PutLeavesOthers(digest, w, node, body, k); }
  }

  /** No other exchange adds to it. */
  lemma IndexAfter(digest: Sha256, w: World, call: Call, body: Bytes, k: string)
    requires call.Do? && (call.req.verb.PUT? ==> |call.req.node.hashes| > 0)
    requires k in UserIndex(Exchange(digest, w, call, body).store, w.user)
    ensures var before, after := UserIndex(w.store, w.user), UserIndex(Exchange(digest, w, call, body).store, w.user);
            || (k in before && after[k] == before[k])
            || (call.req.verb.PUT? && k == KeyOf(call) && after[k] == call.req.node.LastHash() == Sha(digest, body))
  {
    if call.req.verb.PUT? { PutIndex(digest, w, call.req.node, body, k); }
  }

  lemma PutCovers(digest: Sha256, w: World, node: Node, body: Bytes)
    requires |node.hashes| > 0 && Entered(w)
    ensures Entered(Put(digest, w, node, body)) && (Covers(w) ==> Covers(Put(digest, w, node, body)))
  {
    var before, w1 := UserIndex(w.store, w.user), Put(digest, w, node, body);
    var after := UserIndex(w1.store, w.user);
    assert w.mirror.Keys <= w1.mirror.Keys;
    assert |Sha(digest, body)| == 64;
    forall k | k in after ensures after[k] != "" && (k in before || k in w1.mirror) {
      PutIndex(digest, w, node, body, k);
      if k in before { assert before[k] != ""; }
    }
  }

  lemma GetCovers(digest: Sha256, w: World, node: Node)
    requires Entered(w)
    ensures Entered(Get(digest, w, node)) && (Covers(w) ==> Covers(Get(digest, w, node)))
  {
    var before, after := UserIndex(w.store, w.user), UserIndex(Get(digest, w, node).store, w.user);
    forall k | k in after ensures k in before && after[k] == before[k] && before[k] != "" { }
  }

  lemma DeleteCovers(w: World, node: Node)
    requires Entered(w)
    ensures Entered(Delete(w, node)) && (Covers(w) ==> Covers(Delete(w, node)))
  {
    var before, after := UserIndex(w.store, w.user), UserIndex(Delete(w, node).store, w.user);
    forall k | k in after
      ensures k in before && k != node.AbsolutePath() && after[k] == before[k] && before[k] != "" { }
  }

  /** Two worlds agree on one key: file and entry at the server, mirror, local file. */
  ghost predicate AgreeAt(w: World, w1: World, key: string) {
    && w1.user == w.user
    && (FullPath(w.user, key) in w.store.files <==> FullPath(w.user, key) in w1.store.files)
    && (FullPath(w.user, key) in w.store.files ==>
          w1.store.files[FullPath(w.user, key)] == w.store.files[FullPath(w.user, key)])
    && (key in UserIndex(w.store, w.user) <==> key in UserIndex(w1.store, w.user))
    && (key in UserIndex(w.store, w.user) ==> UserIndex(w1.store, w.user)[key] == UserIndex(w.store, w.user)[key])
    && (key in w.mirror <==> key in w1.mirror)
    && (key in w.mirror ==> w1.mirror[key] == w.mirror[key])
    && (LocalKey(key) in w.local <==> LocalKey(key) in w1.local)
    && (LocalKey(key) in w.local ==> w1.local[LocalKey(key)] == w.local[LocalKey(key)])
  }

  lemma FullPathSameUser(user: string, p: string, q: string)
    ensures FullPath(user, p) == FullPath(user, q) <==> p == q
  {
    assert FullPath(user, p)[|DATA_DIR + user|..] == p;
    assert FullPath(user, q)[|DATA_DIR + user|..] == q;
  }

  lemma LocalKeyInjective(p: string, q: string)
    ensures LocalKey(p) == LocalKey(q) <==> p == q
  {
    assert LocalKey(p)[2..] == p && LocalKey(q)[2..] == q;
  }

  /** An exchange about one key leaves every other key alone. */
  lemma OtherKeysUntouched(digest: Sha256, w: World, call: Call, body: Bytes, key: string)
    requires call.Do? && !call.req.verb.SNAPSHOT? && (call.req.verb.PUT? ==> |call.req.node.hashes| > 0)
    requires KeyOf(call) != key
    ensures AgreeAt(w, Exchange(digest, w, call, body), key)
  {
    match call.req.verb {
      case PUT => PutLeavesOthers(digest, w, call.req.node, body, key);
      case GET => GetLeavesOthers(digest, w, call.req.node, key);
      case DELETE => DeleteLeavesOthers(w, call.req.node, key);
      case PATCH =>
    }
  }

  /** Two stores have the same file and the same entry for a path of a user. */
  ghost predicate SameAt(a: Store, b: Store, user: string, key: string) {
    && (FullPath(user, key) in a.files <==> FullPath(user, key) in b.files)
    && (FullPath(user, key) in a.files ==> b.files[FullPath(user, key)] == a.files[FullPath(user, key)])
    && (key in UserIndex(a, user) <==> key in UserIndex(b, user))
    && (key in UserIndex(a, user) ==> UserIndex(b, user)[key] == UserIndex(a, user)[key])
  }

  lemma OpenedElsewhere(st: Store, user: string, path: string, key: string)
    requires path != key
    ensures SameAt(st, Opened(st, user, path), user, key)
  {
    FullPathSameUser(user, path, key);
  }

  lemma ClosedElsewhere(digest: Sha256, st: Store, user: string, path: string, hash: string, body: Bytes, key: string)
    requires path != key
    ensures SameAt(st, Closed(digest, st, user, path, hash, body), user, key)
  {
    FullPathSameUser(user, path, key);
  }

  lemma PutLeavesOthers(digest: Sha256, w: World, node: Node, body: Bytes, key: string)
    requires |node.hashes| > 0 && node.AbsolutePath() != key
    ensures AgreeAt(w, Put(digest, w, node, body), key)
  {
    var path := node.AbsolutePath();
    OpenedElsewhere(w.store, w.user, path, key);
    ClosedElsewhere(digest, Opened(w.store, w.user, path), w.user, path, node.LastHash(), body, key);
  }

  lemma GetLeavesOthers(digest: Sha256, w: World, node: Node, key: string)
    requires node.AbsolutePath() != key
    ensures AgreeAt(w, Get(digest, w, node), key)
  {
    LocalKeyInjective(node.AbsolutePath(), key);
  }

  lemma DeleteLeavesOthers(w: World, node: Node, key: string)
    requires node.AbsolutePath() != key
    ensures AgreeAt(w, Delete(w, node), key)
  {
    FullPathSameUser(w.user, node.AbsolutePath(), key);
  }

  type Log = seq<(Call, Bytes)>

  ghost predicate Callable(log: Log) {
    forall i :: 0 <= i < |log| ==> log[i].0.Do? && log[i].0.req.verb.PUT? ==> |log[i].0.req.node.hashes| > 0
  }

  /** A sequence of exchanges. */
  function Replay(digest: Sha256, w: World, log: Log): World
    requires Callable(log)
  {
    if |log| == 0 then w
    else Exchange(digest, Replay(digest, w, log[..|log| - 1]), log[|log| - 1].0, log[|log| - 1].1)
  }

  /** Jobs without a PUT of the key. */
  ghost predicate NoPutOf(log: Log, key: string) {
    forall i :: 0 <= i < |log| ==>
      log[i].0.Do? && !(log[i].0.req.verb.PUT? && KeyOf(log[i].0) == key)
  }

  /** With no PUT of it, a key that has no entry gets none. */
  lemma {:induction false} NoEntryWithoutPut(digest: Sha256, w: World, log: Log, key: string)
    requires Callable(log) && NoPutOf(log, key) && key !in UserIndex(w.store, w.user)
    ensures key !in UserIndex(Replay(digest, w, log).store, w.user)
    ensures Replay(digest, w, log).user == w.user
  {
    var n := |log| - 1;
    if n >= 0 {
      NoEntryWithoutPut(digest, w, log[..n], key);
      var before, last := Replay(digest, w, log[..n]), log[n];
      if KeyOf(last.0) != key && !last.0.req.verb.SNAPSHOT? {
        OtherKeysUntouched(digest, before, last.0, last.1, key);
      }
    }
  }

  /** No resurrection through the queue: after a DELETE of a key, whatever its reply, and then any
      jobs but a PUT of that key, a GET of it is answered "not found", writes no local file and takes
      the key out of the mirror. */
  lemma NoResurrection(digest: Sha256, w: World, deletion: Node, between: Log, retrieval: Node)
    requires Callable(between) && deletion.AbsolutePath() == retrieval.AbsolutePath()
    requires NoPutOf(between, retrieval.AbsolutePath())
    ensures var w1 := Replay(digest, Delete(w, deletion), between);
            var w2 := Get(digest, w1, retrieval);
            && !Served(w1, retrieval.AbsolutePath())
            && w2.local == w1.local && w2.store == w1.store
            && w2.mirror == w1.mirror - {retrieval.AbsolutePath()}
  {
    NoEntryWithoutPut(digest, Delete(w, deletion), between, retrieval.AbsolutePath());
  }

  /** End to end, on the side of the server: whatever arrives as the body, the file is kept and
      indexed if and only if it hashes to what was declared; otherwise neither file nor entry is
      left. Without collisions, it is kept only if it is the file that was hashed. */
  lemma PutKeepsWhatWasDeclared(digest: Sha256, w: World, node: Node, body: Bytes)
    requires |node.hashes| > 0 && !AlreadyThere(digest, w.store, w.user, node.AbsolutePath(), node.LastHash())
    ensures var key := node.AbsolutePath();
            var w1 := Put(digest, w, node, body);
            var full := FullPath(w.user, key);
            if node.LastHash() == Sha(digest, body) then
              && full in w1.store.files && w1.store.files[full] == body
              && key in UserIndex(w1.store, w.user) && UserIndex(w1.store, w.user)[key] == Sha(digest, body)
              && key in w1.mirror
            else
              full !in w1.store.files && key !in UserIndex(w1.store, w.user) && w1.mirror == w.mirror
    ensures forall content: Bytes :: node.LastHash() == Sha(digest, content) && node.LastHash() == Sha(digest, body)
              ==> digest(content) == digest(body)
  {
    forall content: Bytes | Sha(digest, content) == Sha(digest, body) ensures digest(content) == digest(body) {
      HexInjective(digest(content), digest(body));
    }
  }

  /** End to end: whatever the writes, the announced number of bytes is sent; the server keeps and
      indexes what arrived if and only if it hashes to the declared hash; and if every write sent its
      whole chunk, it keeps the file and the mirror has its key. */
  lemma EndToEndPut(digest: Sha256, w: World, node: Node, content: Bytes, buffer: Bytes, cuts: seq<nat>)
    requires |node.hashes| > 0 && node.LastHash() == Sha(digest, content)
    requires |buffer| == LEN_BUFF && |content| <= INT_MAX && Writes(|content|, cuts)
    requires !AlreadyThere(digest, w.store, w.user, node.AbsolutePath(), node.LastHash())
    ensures var body := Transmitted(content, 0, buffer, |content|, cuts);
            var full := FullPath(w.user, node.AbsolutePath());
            var w1 := Put(digest, w, node, body);
            && |body| == |content|
            && (full in w1.store.files <==> digest(body) == digest(content))
            && (full in w1.store.files ==> w1.store.files[full] == body)
            && (WholeWrites(|content|, cuts) ==>
                  body == content && full in w1.store.files && w1.store.files[full] == content
                  && node.AbsolutePath() in UserIndex(w1.store, w.user) && node.AbsolutePath() in w1.mirror)
  {
    TransmittedLength(content, 0, buffer, |content|, cuts);
    if WholeWrites(|content|, cuts) {
      TransmittedWhole(content, 0, buffer, |content|, cuts);
    }
    var body := Transmitted(content, 0, buffer, |content|, cuts);
    PutKeepsWhatWasDeclared(digest, w, node, body);
  }

  /** `Entered` for every user. */
  ghost predicate AllEntered(st: Store) {
    forall u, k :: k in UserIndex(st, u) ==> UserIndex(st, u)[k] != ""
  }

  lemma EnteredKept(digest: Sha256, w: World, call: Call, body: Bytes)
    requires call.Do? && call.req.verb.PUT? ==> |call.req.node.hashes| > 0
    requires AllEntered(w.store)
    ensures AllEntered(Exchange(digest, w, call, body).store)
  {
    var st := Exchange(digest, w, call, body).store;
    if call.Do? { CoversKept(digest, w, call, body); }
    forall u, k | k in UserIndex(st, u) ensures UserIndex(st, u)[k] != "" {
      if u != w.user { OtherUsersUntouched(digest, w, call, body, u); }
    }
  }

  lemma OtherUsersUntouched(digest: Sha256, w: World, call: Call, body: Bytes, u: string)
    requires call.Do? && call.req.verb.PUT? ==> |call.req.node.hashes| > 0
    requires u != w.user
    ensures UserIndex(Exchange(digest, w, call, body).store, u) == UserIndex(w.store, u)
  {
    if call.Do? && call.req.verb.PUT? {
      OtherUsersPut(digest, w, call.req.node, body, u);
    }
  }

  lemma OtherUsersPut(digest: Sha256, w: World, node: Node, body: Bytes, u: string)
    requires |node.hashes| > 0 && u != w.user
    ensures UserIndex(Put(digest, w, node, body).store, u) == UserIndex(w.store, u)
  {
    var st := Opened(w.store, w.user, node.AbsolutePath());
    assert UserIndex(st, u) == UserIndex(w.store, u);
    assert UserIndex(Closed(digest, st, w.user, node.AbsolutePath(), node.LastHash(), body), u) == UserIndex(st, u);
  }

  lemma {:induction false} EnteredStays(digest: Sha256, w: World, log: Log)
    requires Callable(log) && AllEntered(w.store)
    ensures AllEntered(Replay(digest, w, log).store)
  {
    var n := |log| - 1;
    if n >= 0 {
      EnteredStays(digest, w, log[..n]);
      EnteredKept(digest, Replay(digest, w, log[..n]), log[n].0, log[n].1);
    }
  }

  /** From a snapshot on, the mirror covers the index, whatever was the case before it. */
  lemma {:induction false} CoversFromSnapshot(digest: Sha256, w: World, log: Log, i: nat)
    requires Callable(log) && AllEntered(w.store) && i < |log|
    requires log[i].0.Do? && log[i].0.req.verb.SNAPSHOT?
    requires forall j :: i <= j < |log| ==> log[j].0.Do?
    ensures Covers(Replay(digest, w, log))
  {
    var n := |log| - 1;
    var before := Replay(digest, w, log[..n]);
    EnteredStays(digest, w, log[..n]);
    if i < n {
      CoversFromSnapshot(digest, w, log[..n], i);
    }
    CoversKept(digest, before, log[n].0, log[n].1);
  }

  /** After a PUT the server gives the file back if and only if it has just been kept, or was there
      already with an entry: a file that is there without one gets none. */
  lemma ServedExactly(digest: Sha256, w: World, node: Node, body: Bytes)
    requires |node.hashes| > 0
    ensures var key := node.AbsolutePath();
            Served(Put(digest, w, node, body), key) <==>
              if AlreadyThere(digest, w.store, w.user, key, node.LastHash()) then GetHash(w.store, w.user, key) != ""
              else node.LastHash() == Sha(digest, body)
  {
    if !AlreadyThere(digest, w.store, w.user, node.AbsolutePath(), node.LastHash()) {
      PutKeepsWhatWasDeclared(digest, w, node, body);
      assert |Sha(digest, body)| == 64;
    }
  }

  /** The server has the file of every mirror key. */
  ghost predicate Held(w: World) {
    forall k :: k in w.mirror ==> FullPath(w.user, k) in w.store.files
  }

  /** And that of every entry of the user's index. */
  ghost predicate Filed(w: World) {
    forall k :: k in UserIndex(w.store, w.user) ==> FullPath(w.user, k) in w.store.files
  }

  /** A PUT sends what its node declares. */
  ghost predicate SendsDeclared(digest: Sha256, call: Call, body: Bytes) {
    call.Do? && (call.req.verb.PUT? ==> |call.req.node.hashes| > 0 && call.req.node.LastHash() == Sha(digest, body))
  }

  /** The mirror promises no file the server does not have: every exchange keeps that, as long as a PUT
      arrives as it was declared. */
  lemma HeldKept(digest: Sha256, w: World, call: Call, body: Bytes)
    requires SendsDeclared(digest, call, body) && Held(w) && Filed(w)
    ensures var w1 := Exchange(digest, w, call, body); w1.user == w.user && Held(w1) && Filed(w1)
  {
    match call.req.verb {
      case PUT => PutHeld(digest, w, call.req.node, body);
      case DELETE => DeleteHeld(w, call.req.node);
      case _ =>
    }
  }

  lemma DeleteHeld(w: World, node: Node)
    requires Held(w) && Filed(w)
    ensures Held(Delete(w, node)) && Filed(Delete(w, node))
  {
    forall k | k != node.AbsolutePath() ensures FullPath(w.user, k) != FullPath(w.user, node.AbsolutePath()) {
      FullPathSameUser(w.user, k, node.AbsolutePath());
    }
  }

  lemma PutHeld(digest: Sha256, w: World, node: Node, body: Bytes)
    requires |node.hashes| > 0 && node.LastHash() == Sha(digest, body) && Held(w) && Filed(w)
    ensures Held(Put(digest, w, node, body)) && Filed(Put(digest, w, node, body))
  {
    var path, w1 := node.AbsolutePath(), Put(digest, w, node, body);
    forall k | k != path ensures AgreeAt(w, w1, k) { PutLeavesOthers(digest, w, node, body, k); }
    if !AlreadyThere(digest, w.store, w.user, path, node.LastHash()) {
      PutKeepsWhatWasDeclared(digest, w, node, body);
    }
    assert FullPath(w.user, path) in w1.store.files;
  }

  /** A PUT that replaces a file and arrives damaged leaves its key in the mirror and nothing at the
      server. Exactly then the mirror promises too much: it is kept if and only if the server has that
      content already, or what arrives is what was declared, or the mirror does not have the key. */
  lemma HeldExactly(digest: Sha256, w: World, node: Node, body: Bytes)
    requires |node.hashes| > 0 && Held(w)
    ensures Held(Put(digest, w, node, body)) <==>
              || AlreadyThere(digest, w.store, w.user, node.AbsolutePath(), node.LastHash())
              || node.LastHash() == Sha(digest, body)
              || node.AbsolutePath() !in w.mirror
  {
    var path, w1 := node.AbsolutePath(), Put(digest, w, node, body);
    forall k | k != path ensures AgreeAt(w, w1, k) { PutLeavesOthers(digest, w, node, body, k); }
    if !AlreadyThere(digest, w.store, w.user, path, node.LastHash()) {
      PutKeepsWhatWasDeclared(digest, w, node, body);
      assert path in w.mirror ==> path in w1.mirror;
    }
    forall k | k != path && k in w1.mirror ensures FullPath(w.user, k) in w1.store.files { assert AgreeAt(w, w1, k); }
    assert Held(w1) <==> (path in w1.mirror ==> FullPath(w.user, path) in w1.store.files);
  }
}

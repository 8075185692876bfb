/** Scanning, then letting the queue run empty, again and again: how long until the mirror has the keys
    of the local files, and the server a file for each of them.

    A round is one scan of the watcher (module Watcher), the requests its events leave (module
    Callbacks), and those requests carried out in order as exchanges (module Rpc), with snapshots in
    between at any point. Nobody edits files; every file can be read; what a PUT sends is its file. */
module Convergence {
  import opened Wire
  import opened Option
  import opened Numbers
  import opened Protocol
  import opened Calls
  import opened Hashing
  import opened Nodes
  import opened Stores
  import opened Clients
  import opened Rpc
  import opened Orderings
  import opened Watcher
  import opened Callbacks

  datatype Site = Site(w: World, paths: Paths, tree: Tree)

  predicate IsCompose(key: string) { NameOf(key) == COMPOSE_FILE }

  /** The watched directory holds the files of the client, all readable, and none of its
      subdirectories has the name of a file that it or the mirror holds. */
  ghost predicate SoundTree(s: Site) {
    && s.tree.files.Keys == s.w.local.Keys
    && (forall k :: k in s.w.local ==>
                      IsLocal(k) && s.tree.files[k].content == s.w.local[k] && s.tree.files[k].readable)
    && (forall k :: k in s.w.local ==> k !in s.tree.dirs)
    && (forall k :: k in s.w.mirror ==> LocalKey(k) !in s.tree.dirs)
  }

  /** A node the mirror may hold for a key. */
  ghost predicate NodeFor(node: Node, key: string) {
    Absolute(node.path) == key && !node.isDir && |node.hashes| > 0
  }

  ghost predicate SoundMirror(w: World) {
    && (forall k :: k in w.mirror ==> IsRemote(k) && NodeFor(w.mirror[k], k))
    && (forall k :: k in UserIndex(w.store, w.user) ==> IsRemote(k))
  }

  ghost predicate SoundPaths(s: Site) {
    forall k :: k in s.paths ==>
      && IsLocal(k) && Absolute(s.paths[k].path) == RemoteKey(k) && |s.paths[k].hashes| > 0
      && (k in s.tree.files ==> !s.paths[k].isDir)
  }

  ghost predicate Sound(s: Site) {
    SoundTree(s) && SoundMirror(s.w) && SoundPaths(s) && Covers(s.w) && AllEntered(s.w.store)
  }

  /** The requests of a log, snapshots left out. */
  function Requests(log: Log): seq<Request> {
    if |log| == 0 then []
    else
      var last := log[|log| - 1].0;
      Requests(log[..|log| - 1]) + (if last.Do? && !last.req.verb.SNAPSHOT? then [last.req] else [])
  }

  /** The log carries out the requests in order, and each PUT sends the file as it is then. */
  ghost predicate Drains(digest: Sha256, w: World, log: Log, js: seq<Request>) {
    && Callable(log) && Requests(log) == js
    && (forall i :: 0 <= i < |log| ==> log[i].0.Do?)
    && (forall i :: 0 <= i < |log| && log[i].0.req.verb.PUT? ==>
          var now := Replay(digest, w, log[..i]).local;
          LocalKey(KeyOf(log[i].0)) in now && log[i].1 == now[LocalKey(KeyOf(log[i].0))])
  }

  /** A scan as it happened: its events, the orders of its passes, what was pending as it came to each
      file, and the exchanges that carried its requests out. */
  datatype Scan = Scan(events: seq<Event>, gone: seq<string>, seen: seq<string>, pendings: seq<set<string>>,
                       absent: seq<string>, log: Log)

  /** The second pass over the first `n` files of an order, with what was pending as it came to each. */
  function LiveVisits(digest: Sha256, order: seq<string>, pendings: seq<set<string>>, n: nat, paths: Paths, t: Tree,
                      remote: Mirror): seq<Event>
    requires Hashed(paths) && n <= |order| == |pendings| && forall k :: k in order ==> k in t.files
  {
    if n == 0 then []
    else
      var k := order[n - 1];
      assert k in order;
      LiveVisits(digest, order, pendings, n - 1, paths, t, remote)
        + FileEvents(digest, paths, remote, k, t.files[k], k in pendings[n - 1])
  }

  /** With the same keys pending all along it is the pass of the watcher. */
  lemma {:induction false} LiveVisitsOfPass(digest: Sha256, order: seq<string>, pendings: seq<set<string>>,
                                            pending: set<string>, paths: Paths, t: Tree, remote: Mirror, n: nat)
    requires Hashed(paths) && n <= |order| == |pendings| && forall k :: k in order ==> k in t.files
    requires forall i :: 0 <= i < n ==> (order[i] in pendings[i] <==> order[i] in pending)
    ensures LiveVisits(digest, order, pendings, n, paths, t, remote)
            == VisitedEvents(digest, order[..n], paths, t, remote, pending)
  {
    if n > 0 {
      LiveVisitsOfPass(digest, order, pendings, pending, paths, t, remote, n - 1);
      assert order[..n][..n - 1] == order[..n - 1];
    }
  }

  /** The keys the callback marks for these events. */
  function Marked(events: seq<Event>): set<string> {
    set e | e in events && !Ignored(e.node) :: e.node.path
  }

  /** A scan whose events go to the callback one by one: what is pending as it comes to a file are keys
      that were marked for events before, those left whose jobs are not finished yet. */
  ghost predicate IsLiveScan(digest: Sha256, paths: Paths, t: Tree, remote: Mirror, r: Scan)
    requires Hashed(paths)
  {
    && Orders(r.gone, Gone(paths, t)) && Orders(r.seen, Visible(t))
       && Orders(r.absent, Absent(digest, paths, t, remote))
    && |r.pendings| == |r.seen|
    && r.events == ErasedEvents(r.gone, paths) + LiveVisits(digest, r.seen, r.pendings, |r.seen|, paths, t, remote)
                   + MissingEvents(r.absent, remote)
    && forall i :: 0 <= i < |r.seen| ==>
         r.pendings[i] <= Marked(ErasedEvents(r.gone, paths)
           + LiveVisits(digest, r.seen, r.pendings, i, paths, t, remote))
  }

  ghost predicate Round(digest: Sha256, s: Site, r: Scan, t: Site)
    requires Sound(s)
  {
    && IsLiveScan(digest, s.paths, s.tree, s.w.mirror, r)
    && Drains(digest, s.w, r.log, Enqueued(r.events, {}))
    && t.w == Replay(digest, s.w, r.log)
    && t.paths == Rescanned(digest, s.paths, s.tree, s.w.mirror)
    && SoundTree(t)
    && (forall k :: k in s.tree.files && k in t.tree.files ==> t.tree.files[k].time == s.tree.files[k].time)
    && s.tree.dirs.Keys <= t.tree.dirs.Keys
  }

  /** The mirror and the local files agree on a key. */
  predicate Settled(w: World, key: string) {
    key in w.mirror <==> LocalKey(key) in w.local
  }

  lemma NodeName(node: Node, key: string)
    requires Absolute(node.path) == key && IsRemote(key)
    ensures NameOf(node.path) == NameOf(key)
  {
    if IsLocal(node.path) {
      assert node.path[..3] == "../";
      KeysCorrespond(node.path, key);
      NameIgnoresDots(key);
    }
  }

  /** No file that is gone has the path of one that is there. */
  lemma ErasedPathIsOther(s: Site, x: string, k: string)
    requires SoundPaths(s) && x in Gone(s.paths, s.tree) && k in s.tree.files && IsLocal(k)
    ensures s.paths[x].path != k
  {
    SameRemote(x, k);
  }

  /** Nor has the event of another file. */
  lemma VisitedPathIsOther(digest: Sha256, s: Site, x: string, k: string, e: Event)
    requires SoundPaths(s) && Hashed(s.paths) && x != k && IsLocal(x) && IsLocal(k) && x in s.tree.files
    requires e in FileEvents(digest, s.paths, s.w.mirror, x, s.tree.files[x], false)
    ensures e.node.path != k
  {
    SameRemote(x, k);
  }

  /** Scanning while the callback marks keys emits what scanning with nothing pending emits: no key it
      has marked is that of a file still to be looked at. */
  lemma LiveScanIsScan(digest: Sha256, s: Site, r: Scan)
    requires Sound(s) && Hashed(s.paths) && IsLiveScan(digest, s.paths, s.tree, s.w.mirror, r)
    ensures IsScan(digest, s.paths, s.tree, s.w.mirror, {}, r.events, r.gone, r.seen, r.absent)
  {
    VisitsAreSame(digest, s, r, |r.seen|);
    assert r.seen[..|r.seen|] == r.seen;
  }

  /** The events of the first `n` files when nothing is pending. */
  function Visits(digest: Sha256, s: Site, order: seq<string>, n: nat): seq<Event>
    requires Hashed(s.paths) && n <= |order| && forall k :: k in order ==> k in s.tree.files
  {
    VisitedEvents(digest, order[..n], s.paths, s.tree, s.w.mirror, {})
  }

  lemma {:induction false} VisitsAreSame(digest: Sha256, s: Site, r: Scan, n: nat)
    requires Sound(s) && Hashed(s.paths) && IsLiveScan(digest, s.paths, s.tree, s.w.mirror, r) && n <= |r.seen|
    ensures LiveVisits(digest, r.seen, r.pendings, n, s.paths, s.tree, s.w.mirror) == Visits(digest, s, r.seen, n)
  {
    if n > 0 {
      var k := r.seen[n - 1];
      VisitsAreSame(digest, s, r, n - 1);
      NotMarked(digest, s, r, n - 1);
      VisitsOneMore(digest, s, r.seen, n);
    }
  }

  lemma VisitsOneMore(digest: Sha256, s: Site, order: seq<string>, n: nat)
    requires Hashed(s.paths) && 0 < n <= |order| && forall k :: k in order ==> k in s.tree.files
    ensures var k := order[n - 1];
            k in order && Visits(digest, s, order, n)
            == Visits(digest, s, order, n - 1) + FileEvents(digest, s.paths, s.w.mirror, k, s.tree.files[k], false)
  {
    var k := order[n - 1];
    assert k in order;
    assert order[..n] == order[..n - 1] + [k];
    VisitOneMore(digest, order[..n - 1], s.paths, s.tree, s.w.mirror, {}, k);
  }

  lemma NotMarked(digest: Sha256, s: Site, r: Scan, n: nat)
    requires Sound(s) && Hashed(s.paths) && IsLiveScan(digest, s.paths, s.tree, s.w.mirror, r) && n < |r.seen|
    requires LiveVisits(digest, r.seen, r.pendings, n, s.paths, s.tree, s.w.mirror) == Visits(digest, s, r.seen, n)
    ensures r.seen[n] !in r.pendings[n]
  {
    var before := ErasedEvents(r.gone, s.paths) + Visits(digest, s, r.seen, n);
    assert r.seen[n] in r.seen && r.seen[n] in s.w.local;
    forall e | e in before ensures e.node.path != r.seen[n] {
      if e in ErasedEvents(r.gone, s.paths) { ErasedEarlier(s, r.gone, r.seen[n], e); }
      else { VisitedEarlier(digest, s, r.seen, n, r.seen[n], e); }
    }
  }

  lemma ErasedEarlier(s: Site, gone: seq<string>, k: string, e: Event)
    requires Sound(s) && Orders(gone, Gone(s.paths, s.tree)) && k in s.tree.files && e in ErasedEvents(gone, s.paths)
    ensures e.node.path != k
  {
    ErasedAre(gone, s.paths, e);
    var x :| x in gone && e == Event(Erased, s.paths[x]);
    assert k in s.w.local;
    ErasedPathIsOther(s, x, k);
  }

  lemma {:induction false} VisitedEarlier(digest: Sha256, s: Site, order: seq<string>, n: nat, k: string, e: Event)
    requires Sound(s) && Hashed(s.paths) && n <= |order| && IsLocal(k) && forall x :: x in order ==> x in s.tree.files
    requires (forall i :: 0 <= i < n ==> order[i] != k) && e in Visits(digest, s, order, n)
    ensures e.node.path != k
  {
    VisitsOneMore(digest, s, order, n);
    var x := order[n - 1];
    if e in FileEvents(digest, s.paths, s.w.mirror, x, s.tree.files[x], false) {
      assert x in s.w.local;
      VisitedPathIsOther(digest, s, x, k, e);
    } else {
      VisitedEarlier(digest, s, order, n - 1, k, e);
    }
  }

  lemma SameRemote(a: string, b: string)
    requires IsLocal(a) && IsLocal(b)
    ensures Absolute(a) == RemoteKey(a) && (RemoteKey(a) == RemoteKey(b) <==> a == b)
    ensures IsRemote(RemoteKey(a)) && LocalKey(RemoteKey(a)) == a
  {
    KeysCorrespond(a, RemoteKey(a));
    KeysCorrespond(b, RemoteKey(b));
  }

  lemma RemoteRoundTrip(k: string)
    requires IsRemote(k)
    ensures IsLocal(LocalKey(k)) && RemoteKey(LocalKey(k)) == k && Absolute(LocalKey(k)) == k && Absolute(k) == k
  {
    KeysCorrespond(LocalKey(k), k);
  }

  /** What a request of a scan is about. */
  ghost predicate JobOk(digest: Sha256, s: Site, r: Request)
    requires SoundTree(s)
  {
    var key := r.node.AbsolutePath();
    var local := LocalKey(key);
    && IsRemote(key) && !IsCompose(key) && !r.node.isDir
    && match r.verb
       case PUT =>
         && local in s.tree.files && r.node.size == Some(|s.tree.files[local].content|)
         && |r.node.hashes| > 0 && r.node.LastHash() == Sha(digest, s.tree.files[local].content)
       case GET => key in s.w.mirror && r.node == s.w.mirror[key] && local !in s.tree.files
                   && local !in Gone(s.paths, s.tree)
       case DELETE => local in Gone(s.paths, s.tree)
       case _ => false
  }

  lemma EventOk(digest: Sha256, s: Site, e: Event)
    requires Sound(s) && Hashed(s.paths) && Declared(digest, s.paths, s.tree, s.w.mirror, {}, e) && !Ignored(e.node)
    ensures JobOk(digest, s, Request(VerbOf(e.status), e.node))
  {
    if k :| k in Gone(s.paths, s.tree) && e == Event(Erased, s.paths[k]) {
      ErasedEventOk(digest, s, k);
    } else if k :| k in Visible(s.tree) && e in FileEvents(digest, s.paths, s.w.mirror, k, s.tree.files[k], k in {}) {
      FileEventOk(digest, s, k, e);
    } else {
      var k :| k in Absent(digest, s.paths, s.tree, s.w.mirror) && e == Event(Missing, s.w.mirror[k]);
      MissingEventOk(digest, s, k);
    }
  }

  lemma ErasedEventOk(digest: Sha256, s: Site, k: string)
    requires Sound(s) && k in Gone(s.paths, s.tree) && !Ignored(s.paths[k])
    ensures JobOk(digest, s, Request(DELETE, s.paths[k]))
  {
    SameRemote(k, k);
    NodeName(s.paths[k], RemoteKey(k));
  }

  lemma MissingEventOk(digest: Sha256, s: Site, k: string)
    requires Sound(s) && Hashed(s.paths) && k in Absent(digest, s.paths, s.tree, s.w.mirror) && !Ignored(s.w.mirror[k])
    ensures JobOk(digest, s, Request(GET, s.w.mirror[k]))
  {
    assert NodeFor(s.w.mirror[k], k);
    NodeName(s.w.mirror[k], k);
    RemoteRoundTrip(k);
    assert LocalKey(k) in s.tree.files ==> LocalKey(k) in Visible(s.tree);
  }

  lemma FileEventOk(digest: Sha256, s: Site, k: string, e: Event)
    requires Sound(s) && Hashed(s.paths) && k in Visible(s.tree) && !Ignored(e.node)
    requires e in FileEvents(digest, s.paths, s.w.mirror, k, s.tree.files[k], false)
    ensures JobOk(digest, s, Request(VerbOf(e.status), e.node))
  {
    assert k in s.w.local;
    SameRemote(k, k);
    FileEventNode(digest, s, k, e);
    NodeName(e.node, RemoteKey(k));
  }

  /** What the event of a file says of it. */
  lemma FileEventNode(digest: Sha256, s: Site, k: string, e: Event)
    requires SoundPaths(s) && Hashed(s.paths) && k in s.tree.files && Absolute(k) == RemoteKey(k)
    requires e in FileEvents(digest, s.paths, s.w.mirror, k, s.tree.files[k], false)
    ensures var f := s.tree.files[k];
            && VerbOf(e.status) == PUT && Absolute(e.node.path) == RemoteKey(k) && !e.node.isDir
            && e.node.size == Some(|f.content|) && |e.node.hashes| > 0 && e.node.LastHash() == Sha(digest, f.content)
  {
    FileEventsByKind(digest, s.paths, s.w.mirror, k, s.tree.files[k], false, e);
  }

  lemma RequestOk(digest: Sha256, s: Site, r: Scan, q: Request)
    requires Sound(s) && Hashed(s.paths)
    requires IsScan(digest, s.paths, s.tree, s.w.mirror, {}, r.events, r.gone, r.seen, r.absent)
    requires q in Enqueued(r.events, {})
    ensures JobOk(digest, s, q)
  {
    RequestsComeFromEvents(r.events, {}, q);
    var e :| e in r.events && !Ignored(e.node) && q == Request(VerbOf(e.status), e.node);
    ScanIsDeclarative(digest, s.paths, s.tree, s.w.mirror, {}, r.events, r.gone, r.seen, r.absent);
    EventOk(digest, s, e);
  }

  /** A request of the watcher is one the byte streams carry as it is meant, if its path is fit for the
      wire and its file neither empty nor too big: nothing else is asked of it. */
  lemma RequestIsSane(setup: Setup, s: Site, w: World, r: Request)
    requires SoundTree(s) && JobOk(setup.digest, s, r) && w.user != ""
    requires CleanField(r.node.AbsolutePath()) && NoNul(r.node.AbsolutePath())
    requires r.verb.PUT? ==>
               1 <= |s.tree.files[LocalKey(r.node.AbsolutePath())].content| <= INT_MAX
               && INT_MIN <= r.node.time <= INT_MAX
    requires var full := FullPath(w.user, r.node.AbsolutePath());
             r.verb.GET? && full in w.store.files ==> |w.store.files[full]| <= INT_MAX
    ensures Sane(setup, w, Do(r))
  {
    if r.verb.PUT? {
      HashIsCleanField(setup.digest, s.tree.files[LocalKey(r.node.AbsolutePath())].content);
    }
  }

  /** No two requests have the same key in the pending map. */
  ghost predicate Distinct(js: seq<Request>) {
    forall i, j :: 0 <= i < j < |js| ==> js[i].node.path != js[j].node.path
  }

  /** Every call of a log is a snapshot or a good request, and no request comes twice. */
  ghost predicate GoodLog(digest: Sha256, s: Site, log: Log)
    requires SoundTree(s)
  {
    && Drains(digest, s.w, log, Requests(log)) && Distinct(Requests(log))
    && forall i :: 0 <= i < |log| ==> log[i].0.req.verb.SNAPSHOT? || JobOk(digest, s, log[i].0.req)
  }

  lemma {:induction false} NotTwice(log: Log, i: nat)
    requires |log| > 0 && i < |log| - 1 && (forall k :: 0 <= k < |log| ==> log[k].0.Do?) && Distinct(Requests(log))
    requires !log[i].0.req.verb.SNAPSHOT? && !log[|log| - 1].0.req.verb.SNAPSHOT?
    ensures log[i].0.req.node.path != log[|log| - 1].0.req.node.path
  {
    var n := |log| - 1;
    RequestsOfLog(log[..n], log[i].0.req);
    assert log[..n][i] == log[i];
    var k :| 0 <= k < |Requests(log[..n])| && Requests(log[..n])[k] == log[i].0.req;
    assert Requests(log)[k] == log[i].0.req && Requests(log)[|Requests(log)| - 1] == log[n].0.req;
  }

  lemma {:induction false} RequestsOfLog(log: Log, q: Request)
    requires forall i :: 0 <= i < |log| ==> log[i].0.Do?
    ensures q in Requests(log) <==> exists i :: 0 <= i < |log| && log[i].0.req == q && !q.verb.SNAPSHOT?
  {
    var n := |log| - 1;
    if n >= 0 {
      RequestsOfLog(log[..n], q);
      if i :| 0 <= i < |log[..n]| && log[..n][i].0.req == q && !q.verb.SNAPSHOT? {
        assert log[i].0.req == q;
      }
      if i :| 0 <= i < |log| && log[i].0.req == q && !q.verb.SNAPSHOT? {
        if i < n { assert log[..n][i].0.req == q; }
      }
    }
  }

  lemma RoundLogIsGood(digest: Sha256, s: Site, r: Scan, t: Site)
    requires Sound(s) && Hashed(s.paths) && Round(digest, s, r, t)
    ensures GoodLog(digest, s, r.log)
  {
    LiveScanIsScan(digest, s, r);
    RequestsHaveDistinctKeys(r.events, {});
    forall i | 0 <= i < |r.log| ensures r.log[i].0.req.verb.SNAPSHOT? || JobOk(digest, s, r.log[i].0.req) {
      var q := r.log[i].0.req;
      if !q.verb.SNAPSHOT? {
        RequestsOfLog(r.log, q);
        RequestOk(digest, s, r, q);
      }
    }
  }

  lemma GoodPrefix(digest: Sha256, s: Site, log: Log, n: nat)
    requires SoundTree(s) && GoodLog(digest, s, log) && n == |log| - 1
    ensures GoodLog(digest, s, log[..n])
  {
    forall i | 0 <= i < n ensures log[..n][..i] == log[..i] { }
    assert forall i :: 0 <= i < |Requests(log[..n])| ==> Requests(log)[i] == Requests(log[..n])[i];
  }

  ghost predicate HasJob(log: Log, verb: Method, key: string) {
    exists i :: 0 <= i < |log| && log[i].0.Do? && log[i].0.req.verb == verb && KeyOf(log[i].0) == key
  }

  lemma HasJobPrefix(log: Log, verb: Method, key: string)
    requires |log| > 0
    ensures var n := |log| - 1;
            HasJob(log, verb, key) <==>
              HasJob(log[..n], verb, key) || (log[n].0.Do? && log[n].0.req.verb == verb && KeyOf(log[n].0) == key)
  {
    var n := |log| - 1;
    if HasJob(log[..n], verb, key) {
      var i :| 0 <= i < n && log[..n][i].0.Do? && log[..n][i].0.req.verb == verb && KeyOf(log[..n][i].0) == key;
      assert log[i].0.Do? && log[i].0.req.verb == verb && KeyOf(log[i].0) == key;
    }
    if HasJob(log, verb, key) {
      var i :| 0 <= i < |log| && log[i].0.Do? && log[i].0.req.verb == verb && KeyOf(log[i].0) == key;
      if i < n { assert log[..n][i].0.Do? && log[..n][i].0.req.verb == verb && KeyOf(log[..n][i].0) == key; }
    }
  }

  /** Draining keeps the mirror covering the index, and its nodes those of their keys. */
  lemma {:induction false} DrainKeepsSound(digest: Sha256, s: Site, log: Log)
    requires Sound(s) && GoodLog(digest, s, log)
    ensures var w := Replay(digest, s.w, log);
            w.user == s.w.user && SoundMirror(w) && Covers(w) && AllEntered(w.store)
  {
    var n := |log| - 1;
    if n >= 0 {
      GoodPrefix(digest, s, log, n);
      DrainKeepsSound(digest, s, log[..n]);
      StepKeepsSound(digest, s, Replay(digest, s.w, log[..n]), log[n].0, log[n].1);
    }
  }

  lemma StepKeepsSound(digest: Sha256, s: Site, w: World, call: Call, body: Bytes)
    requires Sound(s) && w.user == s.w.user && SoundMirror(w) && Covers(w) && AllEntered(w.store)
    requires call.Do? && (call.req.verb.SNAPSHOT? || JobOk(digest, s, call.req))
    ensures var w1 := Exchange(digest, w, call, body);
            w1.user == s.w.user && SoundMirror(w1) && Covers(w1) && AllEntered(w1.store)
  {
    CoversKept(digest, w, call, body);
    EnteredKept(digest, w, call, body);
    var w1 := Exchange(digest, w, call, body);
    if call.req.verb.SNAPSHOT? {
      forall k | k in w1.mirror ensures IsRemote(k) && NodeFor(w1.mirror[k], k) {
        if k !in w.mirror { RemoteRoundTrip(k); }
      }
    } else {
      forall k | k in w1.mirror ensures IsRemote(k) && NodeFor(w1.mirror[k], k) {
        if k in w.mirror { assert NodeFor(w.mirror[k], k); }
      }
    }
  }

  /** Draining adds local files and changes none. */
  lemma {:induction false} DrainKeepsFiles(digest: Sha256, s: Site, log: Log)
    requires Sound(s) && GoodLog(digest, s, log)
    ensures var w := Replay(digest, s.w, log);
            forall k :: k in s.w.local ==> k in w.local && w.local[k] == s.w.local[k]
  {
    var n := |log| - 1;
    if n >= 0 {
      GoodPrefix(digest, s, log, n);
      DrainKeepsFiles(digest, s, log[..n]);
    }
  }

  /** What is to be had for a key by draining a log: see the cases. */
  ghost predicate Drained(s: Site, w: World, log: Log, key: string) {
    if LocalKey(key) in s.w.local then
      LocalKey(key) in w.local && (key in w.mirror <==> key in s.w.mirror || HasJob(log, PUT, key))
    else if HasJob(log, GET, key) then
      Settled(w, key)
    else
      && LocalKey(key) !in w.local
      && (key in w.mirror ==> key in s.w.mirror)
      && (!HasJob(log, DELETE, key) ==> (key in w.mirror <==> key in s.w.mirror))
  }

  lemma {:induction false} DrainKey(digest: Sha256, s: Site, log: Log, key: string)
    requires Sound(s) && GoodLog(digest, s, log) && IsRemote(key)
    ensures Drained(s, Replay(digest, s.w, log), log, key)
  {
    var n := |log| - 1;
    if n >= 0 {
      GoodPrefix(digest, s, log, n);
      DrainKey(digest, s, log[..n], key);
      DrainKeepsSound(digest, s, log[..n]);
      var call := log[n].0;
      if call.req.verb.SNAPSHOT? {
        DrainSnapshot(digest, s, log, key);
      } else if KeyOf(call) != key {
        DrainOther(digest, s, log, key);
      } else {
        DrainSame(digest, s, log, key);
      }
    }
  }

  /** The situation before the last call of a log. */
  ghost predicate Before(digest: Sha256, s: Site, log: Log, key: string) {
    && |log| > 0 && Sound(s) && GoodLog(digest, s, log) && IsRemote(key)
    && var before := Replay(digest, s.w, log[..|log| - 1]);
       Drained(s, before, log[..|log| - 1], key) && before.user == s.w.user && Covers(before)
  }

  lemma {:induction false} DrainSnapshot(digest: Sha256, s: Site, log: Log, key: string)
    requires Before(digest, s, log, key) && log[|log| - 1].0.req.verb.SNAPSHOT?
    ensures Drained(s, Replay(digest, s.w, log), log, key)
  {
    HasJobPrefix(log, PUT, key);
    HasJobPrefix(log, GET, key);
    HasJobPrefix(log, DELETE, key);
    var before := Replay(digest, s.w, log[..|log| - 1]);
    assert Snapshot(before).mirror.Keys == before.mirror.Keys;
  }

  lemma DrainOther(digest: Sha256, s: Site, log: Log, key: string)
    requires Before(digest, s, log, key) && !log[|log| - 1].0.req.verb.SNAPSHOT? && KeyOf(log[|log| - 1].0) != key
    ensures Drained(s, Replay(digest, s.w, log), log, key)
  {
    HasJobPrefix(log, PUT, key);
    HasJobPrefix(log, GET, key);
    HasJobPrefix(log, DELETE, key);
    OtherKeysUntouched(digest, Replay(digest, s.w, log[..|log| - 1]), log[|log| - 1].0, log[|log| - 1].1, key);
  }

  lemma DrainSame(digest: Sha256, s: Site, log: Log, key: string)
    requires Before(digest, s, log, key) && !log[|log| - 1].0.req.verb.SNAPSHOT? && KeyOf(log[|log| - 1].0) == key
    ensures Drained(s, Replay(digest, s.w, log), log, key)
  {
    var n := |log| - 1;
    var before, call, body := Replay(digest, s.w, log[..n]), log[n].0, log[n].1;
    HasJobPrefix(log, PUT, key);
    HasJobPrefix(log, GET, key);
    HasJobPrefix(log, DELETE, key);
    assert JobOk(digest, s, call.req);
    match call.req.verb {
      case PUT => PutSetsMirror(digest, s, before, call.req.node, body, log, n);
      case GET => OnlyOneGet(digest, s, log, key);
      case DELETE => NoGetOfGone(digest, s, log, key);
    }
  }

  lemma OnlyOneGet(digest: Sha256, s: Site, log: Log, key: string)
    requires |log| > 0 && Sound(s) && GoodLog(digest, s, log)
    requires log[|log| - 1].0.req.verb.GET? && KeyOf(log[|log| - 1].0) == key
    ensures !HasJob(log[..|log| - 1], GET, key)
  {
    var n := |log| - 1;
    if i :| 0 <= i < n && log[..n][i].0.Do? && log[..n][i].0.req.verb == GET && KeyOf(log[..n][i].0) == key {
      assert log[..n][i] == log[i];
      assert JobOk(digest, s, log[i].0.req) && JobOk(digest, s, log[n].0.req);
      NotTwice(log, i);
      assert false;
    }
  }

  lemma NoGetOfGone(digest: Sha256, s: Site, log: Log, key: string)
    requires |log| > 0 && Sound(s) && GoodLog(digest, s, log)
    requires log[|log| - 1].0.req.verb.DELETE? && KeyOf(log[|log| - 1].0) == key
    ensures !HasJob(log[..|log| - 1], GET, key)
  {
    var n := |log| - 1;
    assert JobOk(digest, s, log[n].0.req);
    forall i | 0 <= i < n && log[..n][i].0.Do? && log[..n][i].0.req.verb == GET ensures KeyOf(log[..n][i].0) != key {
      assert JobOk(digest, s, log[i].0.req);
    }
  }

  /** A PUT of a file as it was hashed always ends with its key in the mirror. */
  lemma PutSetsMirror(digest: Sha256, s: Site, before: World, node: Node, body: Bytes, log: Log, n: nat)
    requires Sound(s) && GoodLog(digest, s, log) && n == |log| - 1 && before == Replay(digest, s.w, log[..n])
    requires log[n] == (Do(Request(PUT, node)), body)
    ensures node.AbsolutePath() in Put(digest, before, node, body).mirror
    ensures Put(digest, before, node, body).local == before.local
  {
    GoodPrefix(digest, s, log, n);
    DrainKeepsFiles(digest, s, log[..n]);
    assert JobOk(digest, s, log[n].0.req);
    var local := LocalKey(node.AbsolutePath());
    assert body == before.local[local] == s.w.local[local] == s.tree.files[local].content;
  }

  /** No file of the index is gone, and none has an edit to report. */
  ghost predicate Caught(digest: Sha256, s: Site)
    requires SoundPaths(s)
  {
    && Gone(s.paths, s.tree) == {}
    && forall k :: k in s.paths && k in s.tree.files ==> !Changed(digest, s.paths[k], s.tree.files[k])
  }

  /** The remote keys of the local files are the keys of the mirror, container set-up apart. */
  ghost predicate SameKeys(w: World) {
    forall key :: IsRemote(key) && !IsCompose(key) ==> Settled(w, key)
  }

  lemma RoundKeepsSound(digest: Sha256, s: Site, r: Scan, t: Site)
    requires Sound(s) && Round(digest, s, r, t)
    ensures Sound(t) && Caught(digest, t)
  {
    RoundLogIsGood(digest, s, r, t);
    DrainKeepsSound(digest, s, r.log);
    DrainKeepsFiles(digest, s, r.log);
    forall k | k in t.paths
      ensures IsLocal(k) && Absolute(t.paths[k].path) == RemoteKey(k) && |t.paths[k].hashes| > 0
      ensures t.tree.Exists(k) && (k in t.tree.files ==> k in s.tree.files && !t.paths[k].isDir)
    {
      if k in s.tree.files { RescannedEntry(digest, s, k); }
    }
    forall k | k in t.paths && k in t.tree.files ensures !Changed(digest, t.paths[k], t.tree.files[k]) {
      RescannedEntry(digest, s, k);
    }
  }

  /** What a scan leaves in the index for a file. */
  lemma RescannedEntry(digest: Sha256, s: Site, k: string)
    requires Sound(s) && k in s.tree.files
    ensures var node := Entry(digest, s.paths, s.w.mirror, k, s.tree.files[k]);
            && k in Rescanned(digest, s.paths, s.tree, s.w.mirror)
               && Rescanned(digest, s.paths, s.tree, s.w.mirror)[k] == node
            && IsLocal(k) && Absolute(node.path) == RemoteKey(k) && |node.hashes| > 0 && !node.isDir
            && !Changed(digest, node, s.tree.files[k])
  {
    assert k in s.w.local;
    SameRemote(k, k);
    var key := RemoteKey(k);
    if key in s.w.mirror { assert NodeFor(s.w.mirror[key], key); }
  }

  /** Whatever a scan emits and does not ignore, a request for the same key is carried out. */
  lemma EventIsHandled(digest: Sha256, s: Site, r: Scan, t: Site, e: Event) returns (q: Request)
    requires Sound(s) && Round(digest, s, r, t)
    requires Declared(digest, s.paths, s.tree, s.w.mirror, {}, e) && !Ignored(e.node)
    ensures q.node.AbsolutePath() == e.node.AbsolutePath() && JobOk(digest, s, q)
    ensures HasJob(r.log, q.verb, e.node.AbsolutePath())
  {
    LiveScanIsScan(digest, s, r);
    ScanIsDeclarative(digest, s.paths, s.tree, s.w.mirror, {}, r.events, r.gone, r.seen, r.absent);
    EventsLeaveRequests(r.events, {}, e);
    q :| q in Enqueued(r.events, {}) && q.node.path == e.node.path;
    RequestOk(digest, s, r, q);
    RequestsOfLog(r.log, q);
    var i :| 0 <= i < |r.log| && r.log[i].0.req == q;
    assert r.log[i].0.Do? && r.log[i].0.req.verb == q.verb && KeyOf(r.log[i].0) == e.node.AbsolutePath();
  }

  /** One round settles every key but those whose file has gone since the scan before. */
  lemma RoundSettles(digest: Sha256, s: Site, r: Scan, t: Site, key: string)
    requires Sound(s) && Round(digest, s, r, t) && IsRemote(key) && !IsCompose(key)
    ensures Settled(t.w, key) || LocalKey(key) in Gone(s.paths, s.tree)
  {
    RoundLogIsGood(digest, s, r, t);
    DrainKey(digest, s, r.log, key);
    RemoteRoundTrip(key);
    var k := LocalKey(key);
    if k in s.w.local && key !in s.w.mirror {
      LackedIsSent(digest, s, r, t, key);
    } else if k !in s.w.local && key in s.w.mirror && k !in Gone(s.paths, s.tree) {
      MissedIsFetched(digest, s, r, t, key);
    }
  }

  lemma LackedIsSent(digest: Sha256, s: Site, r: Scan, t: Site, key: string)
    requires Sound(s) && Round(digest, s, r, t) && IsRemote(key) && !IsCompose(key)
    requires LocalKey(key) in s.w.local && key !in s.w.mirror
    ensures HasJob(r.log, PUT, key)
  {
    RemoteRoundTrip(key);
    var k := LocalKey(key);
    var node := FileNode(digest, k, s.tree.files[k]);
    NodeName(node, key);
    var e := Event(if k in s.paths then Untracked else Created, node);
    assert k in Visible(s.tree) && e in FileEvents(digest, s.paths, s.w.mirror, k, s.tree.files[k], k in {});
    var q := EventIsHandled(digest, s, r, t, e);
  }

  lemma MissedIsFetched(digest: Sha256, s: Site, r: Scan, t: Site, key: string)
    requires Sound(s) && Round(digest, s, r, t) && IsRemote(key) && !IsCompose(key)
    requires LocalKey(key) !in s.w.local && key in s.w.mirror && LocalKey(key) !in Gone(s.paths, s.tree)
    ensures HasJob(r.log, GET, key)
  {
    RemoteRoundTrip(key);
    var node := s.w.mirror[key];
    assert NodeFor(node, key);
    NodeName(node, key);
    assert key in Absent(digest, s.paths, s.tree, s.w.mirror);
    var q := EventIsHandled(digest, s, r, t, Event(Missing, node));
  }

  lemma {:induction false} NothingEnqueued(events: seq<Event>, pending: set<string>)
    requires forall e :: e in events ==> Ignored(e.node)
    ensures Enqueued(events, pending) == []
  {
    if |events| > 0 { NothingEnqueued(events[1..], pending); }
  }

  /** When the keys agree and the index has caught up, a scan has nothing to enqueue. */
  lemma SettledIsQuiet(digest: Sha256, s: Site, r: Scan, t: Site)
    requires Sound(s) && Round(digest, s, r, t) && Caught(digest, s) && SameKeys(s.w)
    ensures Enqueued(r.events, {}) == []
  {
    LiveScanIsScan(digest, s, r);
    ScanIsDeclarative(digest, s.paths, s.tree, s.w.mirror, {}, r.events, r.gone, r.seen, r.absent);
    forall e | e in r.events ensures Ignored(e.node) {
      if !Ignored(e.node) { ReportedIsUnsettled(digest, s, e); }
    }
    NothingEnqueued(r.events, {});
  }

  lemma ReportedIsUnsettled(digest: Sha256, s: Site, e: Event)
    requires Sound(s) && Caught(digest, s) && !Ignored(e.node) && Declared(digest, s.paths, s.tree, s.w.mirror, {}, e)
    ensures exists key :: IsRemote(key) && !IsCompose(key) && !Settled(s.w, key)
  {
    if k :| k in Visible(s.tree) && e in FileEvents(digest, s.paths, s.w.mirror, k, s.tree.files[k], k in {}) {
      ReportedFileIsUnsettled(digest, s, k, e);
    } else {
      var k :| k in Absent(digest, s.paths, s.tree, s.w.mirror) && e == Event(Missing, s.w.mirror[k]);
      assert NodeFor(s.w.mirror[k], k);
      NodeName(e.node, k);
      assert !Settled(s.w, k);
    }
  }

  lemma ReportedFileIsUnsettled(digest: Sha256, s: Site, k: string, e: Event)
    requires Sound(s) && Caught(digest, s) && k in Visible(s.tree) && !Ignored(e.node)
    requires e in FileEvents(digest, s.paths, s.w.mirror, k, s.tree.files[k], false)
    ensures IsRemote(RemoteKey(k)) && !IsCompose(RemoteKey(k)) && !Settled(s.w, RemoteKey(k))
  {
    assert k in s.w.local;
    SameRemote(k, k);
    assert Absolute(e.node.path) == RemoteKey(k);
    NodeName(e.node, RemoteKey(k));
  }

  ghost predicate IsRun(digest: Sha256, sites: seq<Site>, scans: seq<Scan>) {
    && |sites| == |scans| + 1 && Sound(sites[0])
    && forall i :: 0 <= i < |scans| ==> Sound(sites[i]) ==> Round(digest, sites[i], scans[i], sites[i + 1])
  }

  lemma {:induction false} RunIsSound(digest: Sha256, sites: seq<Site>, scans: seq<Scan>, i: nat)
    requires IsRun(digest, sites, scans) && i < |sites|
    ensures Sound(sites[i]) && (i >= 1 ==> Caught(digest, sites[i]))
    ensures i >= 2 ==> SameKeys(sites[i].w)
  {
    if i >= 1 {
      RunIsSound(digest, sites, scans, i - 1);
      RoundKeepsSound(digest, sites[i - 1], scans[i - 1], sites[i]);
      if i >= 2 {
        forall key | IsRemote(key) && !IsCompose(key) ensures Settled(sites[i].w, key) {
          RoundSettles(digest, sites[i - 1], scans[i - 1], sites[i], key);
        }
      }
    }
  }

  /** Convergence: from any sound state, after two rounds the mirror has exactly the keys of the local
      files, container set-up apart, and no scan enqueues anything any more. */
  lemma Convergence(digest: Sha256, sites: seq<Site>, scans: seq<Scan>, i: nat)
    requires IsRun(digest, sites, scans) && 2 <= i < |sites|
    ensures forall key :: IsRemote(key) && !IsCompose(key) ==>
              (key in sites[i].w.mirror <==> LocalKey(key) in sites[i].w.local)
    ensures i < |scans| ==> Enqueued(scans[i].events, {}) == []
  {
    RunIsSound(digest, sites, scans, i);
    if i < |scans| { SettledIsQuiet(digest, sites[i], scans[i], sites[i + 1]); }
  }

  /** What draining does to a mirror key whose file has gone: the server answers a DELETE of a file it
      does not have with an error, and the key stays. */
  ghost predicate Removed(s: Site, w: World, log: Log, key: string) {
    var full := FullPath(s.w.user, key);
    if HasJob(log, DELETE, key) then full !in w.store.files && (key in w.mirror <==> full !in s.w.store.files)
    else key in w.mirror && (full in w.store.files <==> full in s.w.store.files)
  }

  lemma {:induction false} DrainGone(digest: Sha256, s: Site, log: Log, key: string)
    requires Sound(s) && GoodLog(digest, s, log) && IsRemote(key)
    requires key in s.w.mirror && LocalKey(key) in Gone(s.paths, s.tree)
    ensures Removed(s, Replay(digest, s.w, log), log, key)
  {
    var n := |log| - 1;
    if n >= 0 {
      GoodPrefix(digest, s, log, n);
      DrainGone(digest, s, log[..n], key);
      DrainKeepsSound(digest, s, log[..n]);
      HasJobPrefix(log, DELETE, key);
      var before, call, body := Replay(digest, s.w, log[..n]), log[n].0, log[n].1;
      if call.req.verb.SNAPSHOT? {
        assert Snapshot(before).mirror.Keys == before.mirror.Keys;
      } else if KeyOf(call) != key {
        OtherKeysUntouched(digest, before, call, body, key);
      } else {
        assert JobOk(digest, s, call.req);
      }
    }
  }

  /** When one round is enough for the key of a file that has gone: exactly when the server still has
      the file, and the index had it as a file. */
  lemma GoneSettles(digest: Sha256, s: Site, r: Scan, t: Site, key: string)
    requires Sound(s) && Round(digest, s, r, t) && IsRemote(key) && !IsCompose(key)
    requires key in s.w.mirror && LocalKey(key) in Gone(s.paths, s.tree)
    ensures Settled(t.w, key) <==> FullPath(s.w.user, key) in s.w.store.files && !s.paths[LocalKey(key)].isDir
  {
    RoundLogIsGood(digest, s, r, t);
    DrainGone(digest, s, r.log, key);
    DrainKey(digest, s, r.log, key);
    RemoteRoundTrip(key);
    var k := LocalKey(key);
    forall i | 0 <= i < |r.log| ensures !(r.log[i].0.req.verb.GET? && KeyOf(r.log[i].0) == key) {
      assert r.log[i].0.req.verb.GET? ==> JobOk(digest, s, r.log[i].0.req);
    }
    assert !HasJob(r.log, GET, key);
    GoneIsDeleted(digest, s, r, t, key);
  }

  lemma GoneIsDeleted(digest: Sha256, s: Site, r: Scan, t: Site, key: string)
    requires Sound(s) && Round(digest, s, r, t) && IsRemote(key) && !IsCompose(key)
    requires LocalKey(key) in Gone(s.paths, s.tree)
    ensures HasJob(r.log, DELETE, key) <==> !s.paths[LocalKey(key)].isDir
  {
    RemoteRoundTrip(key);
    var k := LocalKey(key);
    var node := s.paths[k];
    NodeName(node, key);
    if !node.isDir {
      var q := EventIsHandled(digest, s, r, t, Event(Erased, node));
    }
    if HasJob(r.log, DELETE, key) {
      LiveScanIsScan(digest, s, r);
      var i :| 0 <= i < |r.log| && r.log[i].0.Do? && r.log[i].0.req.verb == DELETE && KeyOf(r.log[i].0) == key;
      var x := DeletedWasFile(digest, s, r, r.log[i].0.req);
      SameRemote(x, k);
    }
  }

  lemma DeletedWasFile(digest: Sha256, s: Site, r: Scan, q: Request) returns (k: string)
    requires Sound(s) && IsScan(digest, s.paths, s.tree, s.w.mirror, {}, r.events, r.gone, r.seen, r.absent)
    requires Requests(r.log) == Enqueued(r.events, {}) && q.verb.DELETE?
    requires (forall i :: 0 <= i < |r.log| ==> r.log[i].0.Do?) && exists i :: 0 <= i < |r.log| && r.log[i].0.req == q
    ensures k in Gone(s.paths, s.tree) && q.node == s.paths[k] && !q.node.isDir
  {
    RequestsOfLog(r.log, q);
    RequestsComeFromEvents(r.events, {}, q);
    var e :| e in r.events && !Ignored(e.node) && q == Request(VerbOf(e.status), e.node);
    ScanIsDeclarative(digest, s.paths, s.tree, s.w.mirror, {}, r.events, r.gone, r.seen, r.absent);
    EventsByKind(digest, s.paths, s.tree, s.w.mirror, {}, e);
    k :| k in s.paths && !s.tree.Exists(k) && e.node == s.paths[k];
  }

  /** Good requests can be carried out, whatever they are. */
  lemma {:induction false} SomeLog(digest: Sha256, s: Site, js: seq<Request>) returns (log: Log)
    requires Sound(s) && Distinct(js) && forall q :: q in js ==> JobOk(digest, s, q)
    ensures GoodLog(digest, s, log) && Requests(log) == js
  {
    var n := |js| - 1;
    if n < 0 {
      log := [];
    } else {
      var q := js[n];
      assert js[..n] + [q] == js && JobOk(digest, s, q);
      var done := SomeLog(digest, s, js[..n]);
      DrainKeepsFiles(digest, s, done);
      var local, k := Replay(digest, s.w, done).local, LocalKey(q.node.AbsolutePath());
      log := done + [(Do(q), if q.verb.PUT? then local[k] else "")];
      AppendedRequests(digest, s, done, q, log);
      AppendIsGood(digest, s, done, q, log);
    }
  }

  /** `log` is `done` and then a request; a PUT with the content of its file. */
  ghost predicate Appended(digest: Sha256, s: Site, done: Log, q: Request, log: Log) {
    && Callable(done) && |log| == |done| + 1 && log[..|done|] == done && log[|done|].0 == Do(q) && !q.verb.SNAPSHOT?
    && (q.verb.PUT? ==> var local := Replay(digest, s.w, done).local;
                        var k := LocalKey(q.node.AbsolutePath());
                        |q.node.hashes| > 0 && k in local && log[|done|].1 == local[k])
  }

  lemma {:induction false} AppendedRequests(digest: Sha256, s: Site, done: Log, q: Request, log: Log)
    requires Appended(digest, s, done, q, log)
    ensures Requests(log) == Requests(done) + [q]
  {
  }

  lemma {:induction false} AppendedDrains(digest: Sha256, s: Site, done: Log, q: Request, log: Log, js: seq<Request>)
    requires Appended(digest, s, done, q, log) && Drains(digest, s.w, done, js)
    ensures Drains(digest, s.w, log, js + [q])
  {
    AppendedRequests(digest, s, done, q, log);
    forall i | 0 <= i < |done|
      ensures log[i] == done[i] && log[..i] == done[..i] { assert log[..|done|][i] == done[i]; }
  }

  lemma {:induction false} AppendIsGood(digest: Sha256, s: Site, done: Log, q: Request, log: Log)
    requires SoundTree(s) && Appended(digest, s, done, q, log) && JobOk(digest, s, q)
    requires GoodLog(digest, s, done) && Distinct(Requests(log))
    ensures GoodLog(digest, s, log)
  {
    AppendedRequests(digest, s, done, q, log);
    AppendedDrains(digest, s, done, q, log, Requests(done));
    forall i | 0 <= i < |log| ensures log[i].0.req.verb.SNAPSHOT? || JobOk(digest, s, log[i].0.req) {
      if i < |done| { assert log[..|done|][i] == done[i]; }
    }
  }

  /** Draining brings local files for mirror keys and no others. */
  lemma {:induction false} DrainFetches(digest: Sha256, s: Site, log: Log, k: string)
    requires Sound(s) && GoodLog(digest, s, log) && k in Replay(digest, s.w, log).local && k !in s.w.local
    ensures exists key :: key in s.w.mirror && k == LocalKey(key)
  {
    var n := |log| - 1;
    GoodPrefix(digest, s, log, n);
    if k in Replay(digest, s.w, log[..n]).local {
      DrainFetches(digest, s, log[..n], k);
    } else {
      assert JobOk(digest, s, log[n].0.req);
      assert k == LocalKey(KeyOf(log[n].0));
    }
  }

  /** There is a round from every sound state. */
  lemma RoundExists(digest: Sha256, s: Site) returns (r: Scan, t: Site)
    requires Sound(s)
    ensures Round(digest, s, r, t)
  {
    var gone := SomeOrder(Gone(s.paths, s.tree));
    var seen := SomeOrder(Visible(s.tree));
    var absent := SomeOrder(Absent(digest, s.paths, s.tree, s.w.mirror));
    var pendings := seq(|seen|, i => {});
    var events := ErasedEvents(gone, s.paths) + LiveVisits(digest, seen, pendings, |seen|, s.paths, s.tree, s.w.mirror)
                  + MissingEvents(absent, s.w.mirror);
    r := Scan(events, gone, seen, pendings, absent, []);
    LiveScanIsScan(digest, s, r);
    forall q | q in Enqueued(events, {}) ensures JobOk(digest, s, q) { RequestOk(digest, s, r, q); }
    RequestsHaveDistinctKeys(events, {});
    var log := SomeLog(digest, s, Enqueued(events, {}));
    r := Scan(events, gone, seen, pendings, absent, log);
    var w := Replay(digest, s.w, log);
    var files := map k | k in w.local :: File(w.local[k], if k in s.tree.files then s.tree.files[k].time else 0, true);
    t := Site(w, Rescanned(digest, s.paths, s.tree, s.w.mirror), Tree(files, s.tree.dirs));
    TreeAfter(digest, s, log, t);
  }

  lemma TreeAfter(digest: Sha256, s: Site, log: Log, t: Site)
    requires Sound(s) && GoodLog(digest, s, log) && t.w == Replay(digest, s.w, log) && t.tree.dirs == s.tree.dirs
    requires t.tree.files.Keys == t.w.local.Keys
    requires forall k :: k in t.w.local ==> t.tree.files[k].content == t.w.local[k] && t.tree.files[k].readable
    ensures SoundTree(t)
  {
    DrainKeepsSound(digest, s, log);
    forall k | k in t.w.local ensures IsLocal(k) && k !in t.tree.dirs {
      if k !in s.w.local {
        DrainFetches(digest, s, log, k);
        var key :| key in s.w.mirror && k == LocalKey(key);
        RemoteRoundTrip(key);
      }
    }
    forall key | key in t.w.mirror ensures LocalKey(key) !in t.tree.dirs {
      DrainKey(digest, s, log, key);
      if HasJob(log, GET, key) {
        var i :| 0 <= i < |log| && log[i].0.Do? && log[i].0.req.verb == GET && KeyOf(log[i].0) == key;
        assert JobOk(digest, s, log[i].0.req);
      }
    }
  }

  /** The watcher has a change of the file to report. */
  ghost predicate HasEdit(digest: Sha256, s: Site, k: string)
    requires SoundPaths(s)
  {
    k in s.paths && k in s.tree.files && Changed(digest, s.paths[k], s.tree.files[k])
  }

  /** A local file that the mirror has is sent if and only if there is a change of it to report. */
  lemma SentExactly(digest: Sha256, s: Site, r: Scan, t: Site, key: string)
    requires Sound(s) && Round(digest, s, r, t) && IsRemote(key) && !IsCompose(key)
    requires key in s.w.mirror && LocalKey(key) in s.w.local
    ensures HasJob(r.log, PUT, key) <==> HasEdit(digest, s, LocalKey(key))
  {
    if HasEdit(digest, s, LocalKey(key)) { EditIsSent(digest, s, r, t, key); }
    if HasJob(r.log, PUT, key) { SentWasEdited(digest, s, r, t, key); }
  }

  lemma SentWasEdited(digest: Sha256, s: Site, r: Scan, t: Site, key: string)
    requires Sound(s) && Round(digest, s, r, t) && IsRemote(key) && key in s.w.mirror && HasJob(r.log, PUT, key)
    ensures HasEdit(digest, s, LocalKey(key))
  {
    var i :| 0 <= i < |r.log| && r.log[i].0.Do? && r.log[i].0.req.verb == PUT && KeyOf(r.log[i].0) == key;
    SentHasEdit(digest, s, r, t, r.log[i].0.req, key);
  }

  lemma EditIsSent(digest: Sha256, s: Site, r: Scan, t: Site, key: string)
    requires Sound(s) && Round(digest, s, r, t) && IsRemote(key) && !IsCompose(key)
    requires key in s.w.mirror && HasEdit(digest, s, LocalKey(key))
    ensures HasJob(r.log, PUT, key)
  {
    RemoteRoundTrip(key);
    var k := LocalKey(key);
    var e := Event(Modified, Entry(digest, s.paths, s.w.mirror, k, s.tree.files[k]));
    assert k in Visible(s.tree) && e in FileEvents(digest, s.paths, s.w.mirror, k, s.tree.files[k], k in {});
    NodeName(e.node, key);
    var q := EventIsHandled(digest, s, r, t, e);
  }

  lemma SentHasEdit(digest: Sha256, s: Site, r: Scan, t: Site, q: Request, key: string)
    requires Sound(s) && Round(digest, s, r, t) && IsRemote(key) && key in s.w.mirror
    requires q.verb.PUT? && q.node.AbsolutePath() == key && exists i :: 0 <= i < |r.log| && r.log[i].0.req == q
    ensures HasEdit(digest, s, LocalKey(key))
  {
    LiveScanIsScan(digest, s, r);
    RequestsOfLog(r.log, q);
    RequestsComeFromEvents(r.events, {}, q);
    var e :| e in r.events && !Ignored(e.node) && q == Request(VerbOf(e.status), e.node);
    ScanIsDeclarative(digest, s.paths, s.tree, s.w.mirror, {}, r.events, r.gone, r.seen, r.absent);
    PutHasEdit(digest, s, e, key);
  }

  lemma PutHasEdit(digest: Sha256, s: Site, e: Event, key: string)
    requires Sound(s) && Hashed(s.paths) && IsRemote(key) && key in s.w.mirror
    requires Declared(digest, s.paths, s.tree, s.w.mirror, {}, e)
    requires VerbOf(e.status).PUT? && Absolute(e.node.path) == key
    ensures HasEdit(digest, s, LocalKey(key))
  {
    EventsByKind(digest, s.paths, s.tree, s.w.mirror, {}, e);
    var k :| k in s.tree.files && s.tree.files[k].readable
             && OfKind(digest, s.paths, s.w.mirror, k, s.tree.files[k], k in {}, e);
    assert k in s.w.local;
    SameRemote(k, k);
  }

  /** A log of nothing but snapshots leaves the server and the local files alone, and gives a mirror
      that covers the index no key. */
  lemma {:induction false} OnlySnapshots(digest: Sha256, w: World, log: Log)
    requires Callable(log) && Requests(log) == [] && Covers(w) && forall i :: 0 <= i < |log| ==> log[i].0.Do?
    ensures var w1 := Replay(digest, w, log);
            w1.user == w.user && w1.store == w.store && w1.local == w.local && w1.mirror.Keys == w.mirror.Keys
  {
    var n := |log| - 1;
    if n >= 0 {
      assert log[n].0.Do? && log[n].0.req.verb.SNAPSHOT?;
      OnlySnapshots(digest, w, log[..n]);
      assert Snapshot(Replay(digest, w, log[..n])).mirror.Keys == w.mirror.Keys;
    }
  }

  /** Once the keys agree and the index has caught up, rounds change nothing, at the server or here. In
      particular a file the server has lost stays lost: it is not sent again. */
  lemma {:induction false} SettledIsFixed(digest: Sha256, sites: seq<Site>, scans: seq<Scan>, i: nat)
    requires IsRun(digest, sites, scans) && i < |sites| && Caught(digest, sites[0]) && SameKeys(sites[0].w)
    ensures Sound(sites[i]) && Caught(digest, sites[i]) && SameKeys(sites[i].w)
    ensures sites[i].w.user == sites[0].w.user && sites[i].w.store == sites[0].w.store
    ensures sites[i].w.local == sites[0].w.local
  {
    if i > 0 {
      var s, r, t := sites[i - 1], scans[i - 1], sites[i];
      SettledIsFixed(digest, sites, scans, i - 1);
      SettledIsQuiet(digest, s, r, t);
      OnlySnapshots(digest, s.w, r.log);
      RoundKeepsSound(digest, s, r, t);
      forall key | IsRemote(key) && !IsCompose(key) ensures Settled(t.w, key) {
        assert Settled(s.w, key) && (key in t.w.mirror.Keys <==> key in s.w.mirror.Keys);
      }
    }
  }

  /** What a directory and an index must be like: paths of the two forms, nothing unreadable, no
      subdirectory with the name of a file, no empty entry. */
  ghost predicate Wellformed(w: World, t: Tree) {
    && t.files.Keys == w.local.Keys
    && (forall k :: k in t.files ==>
                      IsLocal(k) && t.files[k].content == w.local[k] && t.files[k].readable && k !in t.dirs)
    && (forall k :: k in t.dirs ==> IsLocal(k))
    && (forall k :: k in UserIndex(w.store, w.user) ==> IsRemote(k) && LocalKey(k) !in t.dirs)
    && AllEntered(w.store)
  }

  /** A client that has just indexed its directory and has its first snapshot is in a sound state. */
  lemma FreshIsSound(digest: Sha256, w: World, t: Tree)
    requires w.mirror == map[] && Wellformed(w, t)
    ensures Sound(Site(Snapshot(w), Indexed(digest, t, t.files.Keys + t.dirs.Keys), t))
  {
    var s := Site(Snapshot(w), Indexed(digest, t, t.files.Keys + t.dirs.Keys), t);
    FreshMirror(w);
    FreshPaths(digest, s);
    assert Snapshot(w).store == w.store && Snapshot(w).local == w.local;
    assert forall k :: k in s.w.mirror <==> k in UserIndex(w.store, w.user);
  }

  lemma FreshMirror(w: World)
    requires w.mirror == map[] && forall k :: k in UserIndex(w.store, w.user) ==> IsRemote(k)
    ensures SoundMirror(Snapshot(w)) && Snapshot(w).mirror.Keys == UserIndex(w.store, w.user).Keys
  {
    forall k | k in Snapshot(w).mirror ensures NodeFor(Snapshot(w).mirror[k], k) { RemoteRoundTrip(k); }
  }

  lemma FreshPaths(digest: Sha256, s: Site)
    requires s.paths == Indexed(digest, s.tree, s.tree.files.Keys + s.tree.dirs.Keys)
    requires (forall k :: k in s.tree.files ==> IsLocal(k)) && forall k :: k in s.tree.dirs ==> IsLocal(k)
    ensures SoundPaths(s)
  {
    forall k | k in s.paths ensures Absolute(s.paths[k].path) == RemoteKey(k) { SameRemote(k, k); }
  }
}

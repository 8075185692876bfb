/** client/file_watcher.cpp: the scan that compares the watched directory, the index of the watcher
    and the mirror of the remote keys.

    The functions say, file by file, what the scan makes of the index and which events it emits; class
    FileWatcher does the three passes, each in whatever order its map or directory is walked. */
module Watcher {
  import opened Wire
  import opened Option
  import opened Hashing
  import opened Nodes
  import opened Orderings
  import opened SharedMaps
  import opened Clients

  datatype File = File(content: Bytes, time: int, readable: bool)

  /** The watched directory: files and subdirectories by path, the latter with their times. */
  datatype Tree = Tree(files: map<string, File>, dirs: map<string, int>) {
    predicate Exists(k: string) { k in files || k in dirs }
  }

  datatype FileStatus = Created | Modified | Erased | Missing | Untracked

  datatype Event = Event(status: FileStatus, node: Node)

  type Paths = map<string, Node>

  /** `areTsEqual` */
  predicate TsEqual(a: int, b: int) { -20 <= a - b <= 20 }

  /** `createNode` of a file */
  function FileNode(digest: Sha256, k: string, f: File): Node {
    Node(k, false, [Sha(digest, f.content)], Some(|f.content|), f.time)
  }

  /** `createNodeNoHash` of a file */
  function FileNodeNoHash(k: string, f: File): Node {
    Node(k, false, [], Some(|f.content|), f.time)
  }

  function DirNode(k: string, time: int): Node {
    Node(k, true, [""], Some(0), time)
  }

  ghost predicate Hashed(m: map<string, Node>) {
    forall k :: k in m ==> |m[k].hashes| > 0
  }

  /** Of the entries of a directory, the scan looks at the files it can open. */
  function Visible(t: Tree): set<string> {
    set k | k in t.files && t.files[k].readable
  }

  /** The content of a file is not what the index says, and its time shows it. */
  predicate Changed(digest: Sha256, node: Node, f: File)
    requires |node.hashes| > 0
  {
    !TsEqual(node.time, f.time) && node.LastHash() != Sha(digest, f.content)
  }

  /** The index entry of a visible file after a scan. */
  function Entry(digest: Sha256, paths: Paths, remote: Mirror, k: string, f: File): Node
    requires Hashed(paths)
  {
    if k !in paths then
      if RemoteKey(k) in remote then remote[RemoteKey(k)].SetLastWriteTime(f.time) else FileNode(digest, k, f)
    else if Changed(digest, paths[k], f) then
      paths[k].SetSize(|f.content|).SetLastWriteTime(f.time).SetLastHash(Sha(digest, f.content))
    else paths[k]
  }

  /** The index after a scan: entries of what is gone are gone, and visible files have theirs. */
  function Rescanned(digest: Sha256, paths: Paths, t: Tree, remote: Mirror): (r: Paths)
    requires Hashed(paths)
    ensures Hashed(remote) ==> Hashed(r)
  {
    map k | k in paths.Keys + Visible(t) && t.Exists(k) ::
      if k in Visible(t) then Entry(digest, paths, remote, k, t.files[k]) else paths[k]
  }

  /** The events of one visible file. `wasPending`: it had a pending operation when it was looked at. */
  function FileEvents(digest: Sha256, paths: Paths, remote: Mirror, k: string, f: File, wasPending: bool): seq<Event>
    requires Hashed(paths)
  {
    if k !in paths && RemoteKey(k) !in remote then [Event(Created, FileNode(digest, k, f))]
    else
      (if RemoteKey(k) in remote then []
       else [Event(Untracked, if wasPending then FileNodeNoHash(k, f) else FileNode(digest, k, f))])
      + (if k in paths && Changed(digest, paths[k], f) then
           [Event(Modified, Entry(digest, paths, remote, k, f))]
         else [])
  }

  /** The index entries whose file is gone. */
  function Gone(paths: Paths, t: Tree): set<string> {
    set k | k in paths && !t.Exists(k)
  }

  /** The mirror keys that have no index entry after the scan and did not lose it in the scan. */
  function Absent(digest: Sha256, paths: Paths, t: Tree, remote: Mirror): set<string>
    requires Hashed(paths)
  {
    set k | k in remote && LocalKey(k) !in Rescanned(digest, paths, t, remote) && LocalKey(k) !in Gone(paths, t)
  }

  /** What the scan emits, said without passes and orders. */
  ghost predicate Declared(digest: Sha256, paths: Paths, t: Tree, remote: Mirror, pending: set<string>, e: Event)
    requires Hashed(paths)
  {
    || (exists k :: k in Gone(paths, t) && e == Event(Erased, paths[k]))
    || (exists k :: k in Visible(t) && e in FileEvents(digest, paths, remote, k, t.files[k], k in pending))
    || (exists k :: k in Absent(digest, paths, t, remote) && e == Event(Missing, remote[k]))
  }

  function ErasedEvents(order: seq<string>, paths: Paths): seq<Event>
    requires forall k :: k in order ==> k in paths
  {
    if |order| == 0 then [] else ErasedEvents(order[..|order| - 1], paths) + [Event(Erased, paths[order[|order| - 1]])]
  }

  function VisitedEvents(digest: Sha256, order: seq<string>, paths: Paths, t: Tree, remote: Mirror,
                         pending: set<string>): seq<Event>
    requires Hashed(paths) && forall k :: k in order ==> k in t.files
  {
    if |order| == 0 then []
    else
      var k := order[|order| - 1];
      VisitedEvents(digest, order[..|order| - 1], paths, t, remote, pending)
      + FileEvents(digest, paths, remote, k, t.files[k], k in pending)
  }

  function MissingEvents(order: seq<string>, remote: Mirror): seq<Event>
    requires forall k :: k in order ==> k in remote
  {
    if |order| == 0 then []
    else MissingEvents(order[..|order| - 1], remote) + [Event(Missing, remote[order[|order| - 1]])]
  }

  /** `events` is what a scan may emit: the three passes, each in some order. */
  ghost predicate IsScan(digest: Sha256, paths: Paths, t: Tree, remote: Mirror, pending: set<string>,
                         events: seq<Event>,
                         gone: seq<string>, seen: seq<string>, absent: seq<string>)
    requires Hashed(paths)
  {
    && Orders(gone, Gone(paths, t)) && Orders(seen, Visible(t)) && Orders(absent, Absent(digest, paths, t, remote))
    && events
         == ErasedEvents(gone, paths) + VisitedEvents(digest, seen, paths, t, remote, pending)
           + MissingEvents(absent, remote)
  }

  lemma {:induction false} ErasedAre(order: seq<string>, paths: Paths, e: Event)
    requires forall k :: k in order ==> k in paths
    ensures e in ErasedEvents(order, paths) <==> exists k :: k in order && e == Event(Erased, paths[k])
  {
    var n := |order| - 1;
    if n >= 0 {
      ErasedAre(order[..n], paths, e);
      assert order == order[..n] + [order[n]];
    }
  }

  lemma {:induction false} VisitedAre(digest: Sha256, order: seq<string>, paths: Paths, t: Tree, remote: Mirror,
                                      pending: set<string>, e: Event)
    requires Hashed(paths) && forall k :: k in order ==> k in t.files
    ensures e in VisitedEvents(digest, order, paths, t, remote, pending)
            <==> exists k :: k in order && e in FileEvents(digest, paths, remote, k, t.files[k], k in pending)
  {
    var n := |order| - 1;
    if n >= 0 {
      var last := order[n];
      VisitedAre(digest, order[..n], paths, t, remote, pending, e);
      LastVisited(digest, order, paths, t, remote, pending, e);
      assert forall k :: k in order <==> k in order[..n] || k == last;
    }
  }

  lemma {:induction false} LastVisited(digest: Sha256, order: seq<string>, paths: Paths, t: Tree, remote: Mirror,
                                       pending: set<string>, e: Event)
    requires |order| > 0 && Hashed(paths) && forall k :: k in order ==> k in t.files
    ensures var n := |order| - 1;
            var last := order[n];
            && order == order[..n] + [last]
            && (e in VisitedEvents(digest, order, paths, t, remote, pending) <==>
                  e in VisitedEvents(digest, order[..n], paths, t, remote, pending)
                  || e in FileEvents(digest, paths, remote, last, t.files[last], last in pending))
  {
    assert order[|order| - 1] in order;
  }

  lemma {:induction false} MissingAre(order: seq<string>, remote: Mirror, e: Event)
    requires forall k :: k in order ==> k in remote
    ensures e in MissingEvents(order, remote) <==> exists k :: k in order && e == Event(Missing, remote[k])
  {
    var n := |order| - 1;
    if n >= 0 {
      MissingAre(order[..n], remote, e);
      assert order == order[..n] + [order[n]];
    }
  }

  /** Scan refinement: in whatever orders the passes walk, the events are exactly the declared ones. */
  lemma ScanIsDeclarative(digest: Sha256, paths: Paths, t: Tree, remote: Mirror, pending: set<string>,
                          events: seq<Event>,
                          gone: seq<string>, seen: seq<string>, absent: seq<string>)
    requires Hashed(paths) && IsScan(digest, paths, t, remote, pending, events, gone, seen, absent)
    ensures forall e :: e in events <==> Declared(digest, paths, t, remote, pending, e)
  {
    forall e ensures e in events <==> Declared(digest, paths, t, remote, pending, e) {
      ErasedAre(gone, paths, e);
      VisitedAre(digest, seen, paths, t, remote, pending, e);
      MissingAre(absent, remote, e);
    }
  }

  /** The same thing by kind of event, as differences of sets of keys: which keys have an event of that
      kind, and what node it carries. */
  lemma EventsByKind(digest: Sha256, paths: Paths, t: Tree, remote: Mirror, pending: set<string>, e: Event)
    requires Hashed(paths)
    ensures Declared(digest, paths, t, remote, pending, e) <==>
            match e.status
            case Erased => exists k :: k in paths && k !in t.files && k !in t.dirs && e.node == paths[k]
            case Missing => exists k :: k in remote && LocalKey(k) !in paths && e.node == remote[k]
                                        && !(LocalKey(k) in t.files && t.files[LocalKey(k)].readable)
            case _ => exists k :: k in t.files && t.files[k].readable
                                  && OfKind(digest, paths, remote, k, t.files[k], k in pending, e)
  {
    OfFileByKind(digest, paths, t, remote, pending, e);
    match e.status {
      case Erased => assert forall k :: k in Gone(paths, t) <==> k in paths && k !in t.files && k !in t.dirs;
      case Missing => AbsentByKind(digest, paths, t, remote);
      case _ => assert Declared(digest, paths, t, remote, pending, e) <==> OfFile(digest, paths, t, remote, pending, e);
    }
  }

  lemma AbsentByKind(digest: Sha256, paths: Paths, t: Tree, remote: Mirror)
    requires Hashed(paths)
    ensures forall k :: k in Absent(digest, paths, t, remote) <==>
              && k in remote && LocalKey(k) !in paths
              && !(LocalKey(k) in t.files && t.files[LocalKey(k)].readable)
  {
  }

  lemma OfFileByKind(digest: Sha256, paths: Paths, t: Tree, remote: Mirror, pending: set<string>, e: Event)
    requires Hashed(paths)
    ensures OfFile(digest, paths, t, remote, pending, e) <==>
              exists k :: k in t.files && t.files[k].readable
                          && OfKind(digest, paths, remote, k, t.files[k], k in pending, e)
    ensures e.status.Erased? || e.status.Missing? ==> !OfFile(digest, paths, t, remote, pending, e)
  {
    forall k | k in Visible(t)
      ensures e in FileEvents(digest, paths, remote, k, t.files[k], k in pending)
              <==> OfKind(digest, paths, remote, k, t.files[k], k in pending, e)
    {
      FileEventsByKind(digest, paths, remote, k, t.files[k], k in pending, e);
    }
  }

  /** What the second pass emits for one file, by kind: created if it is in neither index nor mirror,
      untracked if the mirror lacks it, modified if its time is more than 20 away from that in the index
      and its hash another; with path, hashes, size and time as they are. */
  predicate OfKind(digest: Sha256, paths: Paths, remote: Mirror, k: string, f: File, wasPending: bool, e: Event)
    requires Hashed(paths)
  {
    var hash := Sha(digest, f.content);
    match e.status
    case Created =>
      k !in paths && RemoteKey(k) !in remote && e.node == Node(k, false, [hash], Some(|f.content|), f.time)
    case Untracked =>
      && k in paths && RemoteKey(k) !in remote
      && e.node == Node(k, false, if wasPending then [] else [hash], Some(|f.content|), f.time)
    case Modified =>
      && k in paths && (f.time - paths[k].time > 20 || paths[k].time - f.time > 20)
      && paths[k].hashes[|paths[k].hashes| - 1] != hash
      && e.node == Node(paths[k].path, paths[k].isDir, paths[k].hashes + [hash], Some(|f.content|), f.time)
    case _ => false
  }

  /** An edit is seen if and only if the time has moved by more than 20, either way, and the hash is
      another. */
  lemma ChangedExactly(digest: Sha256, node: Node, f: File)
    requires |node.hashes| > 0
    ensures Changed(digest, node, f) <==>
              && (f.time - node.time > 20 || node.time - f.time > 20)
              && node.hashes[|node.hashes| - 1] != Sha(digest, f.content)
  {
  }

  /** The index after a scan, key by key: a file that can be opened has an entry, as it was or brought up
      to date, from the mirror or new; of the rest only what still exists keeps its own. */
  lemma RescannedExactly(digest: Sha256, paths: Paths, t: Tree, remote: Mirror, k: string)
    requires Hashed(paths)
    ensures var after := Rescanned(digest, paths, t, remote);
            if k in t.files && t.files[k].readable then
              var f := t.files[k];
              var hash := Sha(digest, f.content);
              && k in after
              && after[k] == if k in paths then
                               if (f.time - paths[k].time > 20 || paths[k].time - f.time > 20)
                                  && paths[k].hashes[|paths[k].hashes| - 1] != hash then
                                 Node(paths[k].path, paths[k].isDir, paths[k].hashes + [hash],
                                      Some(|f.content|), f.time)
                               else paths[k]
                             else if RemoteKey(k) in remote then remote[RemoteKey(k)].(time := f.time)
                             else Node(k, false, [hash], Some(|f.content|), f.time)
            else
              && (k in after <==> k in paths && (k in t.files || k in t.dirs))
              && (k in after ==> after[k] == paths[k])
  {
  }

  lemma EventsOfFile(digest: Sha256, paths: Paths, remote: Mirror, k: string, f: File, wasPending: bool)
    requires Hashed(paths)
    ensures forall e :: e in FileEvents(digest, paths, remote, k, f, wasPending) <==>
                        OfKind(digest, paths, remote, k, f, wasPending, e)
  {
    forall e ensures e in FileEvents(digest, paths, remote, k, f, wasPending) <==>
                     OfKind(digest, paths, remote, k, f, wasPending, e) {
      FileEventsByKind(digest, paths, remote, k, f, wasPending, e);
    }
  }

  lemma FileEventsByKind(digest: Sha256, paths: Paths, remote: Mirror, k: string, f: File, wasPending: bool, e: Event)
    requires Hashed(paths)
    ensures e in FileEvents(digest, paths, remote, k, f, wasPending) <==>
              OfKind(digest, paths, remote, k, f, wasPending, e)
  {
    if k in paths && Changed(digest, paths[k], f) {
      var node, hash := paths[k], Sha(digest, f.content);
      assert Entry(digest, paths, remote, k, f)
          == Node(node.path, node.isDir, node.hashes + [hash], Some(|f.content|), f.time);
    }
  }

  /** The index in the middle of the second pass, when the files of `done` have been looked at. */
  function Partly(digest: Sha256, paths: Paths, t: Tree, remote: Mirror, done: set<string>): Paths
    requires Hashed(paths) && done <= t.files.Keys
  {
    map k | k in paths.Keys + done :: if k in done then Entry(digest, paths, remote, k, t.files[k]) else paths[k]
  }

  lemma PartlyStep(digest: Sha256, paths: Paths, t: Tree, remote: Mirror, done: set<string>, k: string,
                   wasPending: bool)
    requires Hashed(paths) && Hashed(remote) && done <= t.files.Keys && k in t.files && k !in done
    ensures var now := Partly(digest, paths, t, remote, done);
            && Hashed(now)
            && Partly(digest, paths, t, remote, done + {k}) == now[k := Entry(digest, now, remote, k, t.files[k])]
            && FileEvents(digest, now, remote, k, t.files[k], wasPending)
                 == FileEvents(digest, paths, remote, k, t.files[k], wasPending)
  {
    var now := Partly(digest, paths, t, remote, done);
    assert k in now <==> k in paths;
    assert Entry(digest, now, remote, k, t.files[k]) == Entry(digest, paths, remote, k, t.files[k]);
  }

  lemma VisitOneMore(digest: Sha256, order: seq<string>, paths: Paths, t: Tree, remote: Mirror, pending: set<string>,
                     k: string)
    requires Hashed(paths) && k in t.files && forall x :: x in order ==> x in t.files
    ensures VisitedEvents(digest, order + [k], paths, t, remote, pending)
         == VisitedEvents(digest, order, paths, t, remote, pending)
           + FileEvents(digest, paths, remote, k, t.files[k], k in pending)
  {
    assert (order + [k])[..|order|] == order;
  }

  lemma OneLess(s: set<string>, left: set<string>, k: string)
    requires k in left
    ensures k !in s - left && s - (left - {k}) == if k in s then s - left + {k} else s - left
  {
  }

  /** The second pass has looked at the files of `done`, in the order of `seen`. */
  ghost predicate HaveLooked(digest: Sha256, before: Paths, t: Tree, remote: Mirror, pending: set<string>,
                             done: set<string>, seen: seq<string>, events: seq<Event>, paths: Paths)
    requires Hashed(before)
  {
    && Hashed(paths) && done <= t.files.Keys && Orders(seen, done)
    && events == VisitedEvents(digest, seen, before, t, remote, pending)
    && paths == Partly(digest, before, t, remote, done)
  }

  lemma LookOneMore(digest: Sha256, before: Paths, t: Tree, remote: Mirror, pending: set<string>,
                    done: set<string>, seen: seq<string>, events: seq<Event>, paths: Paths,
                    k: string, more: seq<Event>, paths1: Paths)
    requires Hashed(before) && Hashed(remote)
    requires HaveLooked(digest, before, t, remote, pending, done, seen, events, paths)
    requires k in t.files && k !in done
    requires more == FileEvents(digest, paths, remote, k, t.files[k], k in pending)
    requires paths1 == paths[k := Entry(digest, paths, remote, k, t.files[k])] && Hashed(paths1)
    ensures HaveLooked(digest, before, t, remote, pending, done + {k}, seen + [k], events + more, paths1)
  {
    PartlyStep(digest, before, t, remote, done, k, k in pending);
    OrdersOneMore(seen, done, k);
    VisitOneMore(digest, seen, before, t, remote, pending, k);
  }

  function AbsentAmong(paths: Paths, remote: Mirror, deleted: set<string>, among: set<string>): set<string> {
    set k | k in among && k in remote && LocalKey(k) !in paths && LocalKey(k) !in deleted
  }

  /** `createNode` */
  function NodeAt(digest: Sha256, t: Tree, k: string): Node
    requires t.Exists(k)
  {
    if k in t.files then FileNode(digest, k, t.files[k]) else DirNode(k, t.dirs[k])
  }

  function Indexed(digest: Sha256, t: Tree, done: set<string>): (r: Paths)
    requires done <= t.files.Keys + t.dirs.Keys
    ensures Hashed(r)
  {
    map k | k in done :: NodeAt(digest, t, k)
  }

  lemma IndexedMore(digest: Sha256, t: Tree, done: set<string>, k: string)
    requires done <= t.files.Keys + t.dirs.Keys && t.Exists(k)
    ensures Indexed(digest, t, done + {k}) == Indexed(digest, t, done)[k := NodeAt(digest, t, k)]
  {
  }

  /** What the index at the start holds, field by field. */
  lemma IndexedIs(digest: Sha256, t: Tree)
    ensures var paths := Indexed(digest, t, t.files.Keys + t.dirs.Keys);
            && paths.Keys == t.files.Keys + t.dirs.Keys
            && (forall k :: k in t.files ==>
                  var f := t.files[k];
                  paths[k] == Node(k, false, [Sha(digest, f.content)], Some(|f.content|), f.time))
            && (forall k :: k in t.dirs && k !in t.files ==> paths[k] == Node(k, true, [""], Some(0), t.dirs[k]))
  {
  }

  class FileWatcher {
    const digest: Sha256
    var remote: Mirror
    var paths: Paths

    /** The index at the start: everything there is in the directory. */
    constructor (digest: Sha256, t: Tree)
      ensures this.digest == digest && Hashed(paths)
      ensures paths == Indexed(digest, t, t.files.Keys + t.dirs.Keys)
      ensures paths.Keys == t.files.Keys + t.dirs.Keys
      ensures forall k :: k in t.files ==>
                var f := t.files[k];
                paths[k] == Node(k, false, [Sha(digest, f.content)], Some(|f.content|), f.time)
      ensures forall k :: k in t.dirs && k !in t.files ==> paths[k] == Node(k, true, [""], Some(0), t.dirs[k])
    {
      var index: Paths := map[];
      var left := t.files.Keys + t.dirs.Keys;
      while left != {}
        invariant left <= t.files.Keys + t.dirs.Keys
        invariant index == Indexed(digest, t, t.files.Keys + t.dirs.Keys - left)
      {
        var k :| k in left;
        IndexedMore(digest, t, t.files.Keys + t.dirs.Keys - left, k);
        assert t.files.Keys + t.dirs.Keys - left + {k} == t.files.Keys + t.dirs.Keys - (left - {k});
        left := left - {k};
        index := index[k := NodeAt(digest, t, k)];
      }
      IndexedIs(digest, t);
      this.digest, remote, paths := digest, map[], index;
    }

    /** First pass: entries whose path no longer exists are reported and erased. */
    method EraseGone(t: Tree) returns (events: seq<Event>, deleted: set<string>, ghost gone: seq<string>)
      modifies this`paths
      ensures deleted == Gone(old(paths), t) && Orders(gone, deleted) && events == ErasedEvents(gone, old(paths))
      ensures paths == Kept(old(paths), t)
    {
      events, deleted, gone := [], {}, [];
      ghost var before := paths;
      var left := paths.Keys;
      while left != {}
        invariant left <= before.Keys
        invariant paths == map k | k in before && (k in left || t.Exists(k)) :: before[k]
        invariant deleted == set k | k in before && k !in left && !t.Exists(k)
        invariant Orders(gone, deleted) && events == ErasedEvents(gone, before)
      {
        var k :| k in left;
        left := left - {k};
        if !t.Exists(k) {
          assert (gone + [k])[..|gone|] == gone;
          events := events + [Event(Erased, paths[k])];
          deleted := deleted + {k};
          gone := gone + [k];
          paths := paths - {k};
        }
      }
    }

    /** Second pass: every file that can be opened is looked at once. */
    method LookAtFiles(t: Tree, pending: set<string>) returns (events: seq<Event>, ghost seen: seq<string>)
      requires Hashed(paths) && Hashed(remote)
      modifies this`paths
      ensures Hashed(paths)
      ensures Orders(seen, Visible(t)) && events == VisitedEvents(digest, seen, old(paths), t, remote, pending)
      ensures paths == Partly(digest, old(paths), t, remote, Visible(t))
    {
      events, seen := [], [];
      ghost var before := paths;
      ghost var done: set<string> := {};
      var entries := t.files.Keys + t.dirs.Keys;
      assert Partly(digest, before, t, remote, done) == before;
      while entries != {}
        invariant entries <= t.files.Keys + t.dirs.Keys && done == Visible(t) - entries
        invariant HaveLooked(digest, before, t, remote, pending, done, seen, events, paths)
      {
        var k :| k in entries;
        OneLess(Visible(t), entries, k);
        entries := entries - {k};
        if k in t.files && t.files[k].readable {
          ghost var now := paths;
          var more := LookAt(k, t.files[k], k in pending);
          LookOneMore(digest, before, t, remote, pending, done, seen, events, now, k, more, paths);
          done := done + {k};
          events := events + more;
          seen := seen + [k];
        }
      }
      assert done == Visible(t);
    }

    /** The body of the second pass. */
    method LookAt(k: string, f: File, wasPending: bool) returns (events: seq<Event>)
      requires Hashed(paths) && Hashed(remote)
      modifies this`paths
      ensures Hashed(paths)
      ensures paths == old(paths)[k := Entry(digest, old(paths), remote, k, f)]
      ensures events == FileEvents(digest, old(paths), remote, k, f, wasPending)
      ensures forall e :: e in events <==> OfKind(digest, old(paths), remote, k, f, wasPending, e)
      ensures k in old(paths) ==>
                var was, hash := old(paths)[k], Sha(digest, f.content);
                paths[k] == if (f.time - was.time > 20 || was.time - f.time > 20)
                               && was.hashes[|was.hashes| - 1] != hash then
                              Node(was.path, was.isDir, was.hashes + [hash], Some(|f.content|), f.time)
                            else was
    {
      events := [];
      ghost var before := paths;
      if k !in paths && RemoteKey(k) in remote {
        paths := paths[k := remote[RemoteKey(k)]];
        paths := paths[k := paths[k].SetLastWriteTime(f.time)];
      }
      if k !in paths && RemoteKey(k) !in remote {
        var tmp := FileNode(digest, k, f);
        paths := paths[k := tmp];
        paths := paths[k := paths[k].SetLastWriteTime(f.time)];
        events := events + [Event(Created, tmp)];
      } else {
        if RemoteKey(k) !in remote {
          var tmp := if wasPending then FileNodeNoHash(k, f) else FileNode(digest, k, f);
          events := events + [Event(Untracked, tmp)];
        }
        if !TsEqual(paths[k].time, f.time) {
          var oldHash := paths[k].LastHash();
          var newHash := GetSha(digest, f.content);
          if oldHash != newHash {
            paths := paths[k := paths[k].SetSize(|f.content|)];
            paths := paths[k := paths[k].SetLastWriteTime(f.time)];
            paths := paths[k := paths[k].SetLastHash(newHash)];
            events := events + [Event(Modified, paths[k])];
          }
        }
      }
      assert paths == before[k := paths[k]] && paths[k] == Entry(digest, before, remote, k, f);
      EventsOfFile(digest, before, remote, k, f, wasPending);
    }

    /** Third pass: mirror keys without a local file. */
    method ReportMissing(deleted: set<string>) returns (events: seq<Event>, ghost absent: seq<string>)
      ensures Orders(absent, AbsentAmong(paths, remote, deleted, remote.Keys))
      ensures events == MissingEvents(absent, remote)
    {
      events, absent := [], [];
      var left := remote.Keys;
      while left != {}
        invariant left <= remote.Keys
        invariant Orders(absent, AbsentAmong(paths, remote, deleted, remote.Keys - left))
        invariant events == MissingEvents(absent, remote)
      {
        var k :| k in left;
        ghost var done := remote.Keys - left;
        left := left - {k};
        assert remote.Keys - left == done + {k};
        if LocalKey(k) !in paths && LocalKey(k) !in deleted {
          assert (absent + [k])[..|absent|] == absent;
          assert AbsentAmong(paths, remote, deleted, done + {k}) == AbsentAmong(paths, remote, deleted, done) + {k};
          events := events + [Event(Missing, remote[k])];
          absent := absent + [k];
        } else {
          assert AbsentAmong(paths, remote, deleted, done + {k}) == AbsentAmong(paths, remote, deleted, done);
        }
      }
      assert remote.Keys - left == remote.Keys;
    }

    /** One turn of `start`. `pending` holds the files that have a pending operation when the second
        pass comes to them. */
    method Scan(t: Tree, mirror: SharedMap<Node>, pending: set<string>)
      returns (events: seq<Event>, ghost gone: seq<string>, ghost seen: seq<string>, ghost absent: seq<string>)
      requires Hashed(paths) && Hashed(mirror.contents)
      modifies this
      ensures remote == mirror.contents && Hashed(paths) && paths == Rescanned(digest, old(paths), t, mirror.contents)
      ensures IsScan(digest, old(paths), t, mirror.contents, pending, events, gone, seen, absent)
    {
      remote := mirror.GetMap();
      ghost var before := paths;
      var erased, deleted;
      erased, deleted, gone := EraseGone(t);
      var changed, missing;
      changed, seen := LookAtFiles(t, pending);
      PassesCompose(digest, before, t, remote);
      SameVisits(digest, before, t, remote, pending, seen);
      missing, absent := ReportMissing(deleted);
      assert AbsentAmong(paths, remote, deleted, remote.Keys) == Absent(digest, before, t, remote);
      events := erased + changed + missing;
    }
  }

  /** What the first pass leaves of the index. */
  function Kept(paths: Paths, t: Tree): Paths {
    map k | k in paths && t.Exists(k) :: paths[k]
  }

  /** The first pass takes nothing from the index that the second looks at. */
  lemma SameLook(digest: Sha256, paths: Paths, t: Tree, remote: Mirror, k: string, wasPending: bool)
    requires Hashed(paths) && Hashed(Kept(paths, t)) && k in t.files
    ensures Entry(digest, Kept(paths, t), remote, k, t.files[k]) == Entry(digest, paths, remote, k, t.files[k])
    ensures FileEvents(digest, Kept(paths, t), remote, k, t.files[k], wasPending)
              == FileEvents(digest, paths, remote, k, t.files[k], wasPending)
  {
    assert k in Kept(paths, t) <==> k in paths;
  }

  /** The second pass after the first leaves the index of the scan. */
  lemma PassesCompose(digest: Sha256, paths: Paths, t: Tree, remote: Mirror)
    requires Hashed(paths) && Hashed(Kept(paths, t))
    ensures Partly(digest, Kept(paths, t), t, remote, Visible(t)) == Rescanned(digest, paths, t, remote)
  {
    var a, b := Partly(digest, Kept(paths, t), t, remote, Visible(t)), Rescanned(digest, paths, t, remote);
    forall k ensures k in a <==> k in b { }
    forall k | k in a ensures a[k] == b[k] {
      if k in Visible(t) { SameLook(digest, paths, t, remote, k, false); }
    }
  }

  lemma {:induction false} SameVisits(digest: Sha256, paths: Paths, t: Tree, remote: Mirror, pending: set<string>,
                                      order: seq<string>)
    requires Hashed(paths) && Hashed(Kept(paths, t)) && forall k :: k in order ==> k in t.files
    ensures VisitedEvents(digest, order, Kept(paths, t), t, remote, pending)
              == VisitedEvents(digest, order, paths, t, remote, pending)
  {
    var n := |order| - 1;
    if n >= 0 {
      var k := order[n];
      SameVisits(digest, paths, t, remote, pending, order[..n]);
      SameLook(digest, paths, t, remote, k, k in pending);
      assert VisitedEvents(digest, order, paths, t, remote, pending)
          == VisitedEvents(digest, order[..n], paths, t, remote, pending)
            + FileEvents(digest, paths, remote, k, t.files[k], k in pending);
    }
  }

  /** Edges and levels: a second scan of the same files with the same mirror creates, erases and
      modifies nothing, even where a time has moved and the content has not; what the server lacks is
      untracked again, and every mirror key without a file is missing again, deleted ones included. */
  lemma SecondScan(digest: Sha256, paths: Paths, t: Tree, remote: Mirror, pending: set<string>, e: Event)
    requires Hashed(paths) && Hashed(remote)
    ensures Declared(digest, Rescanned(digest, paths, t, remote), t, remote, pending, e) <==>
            EmittedAgain(digest, Rescanned(digest, paths, t, remote), t, remote, pending, e)
    ensures Rescanned(digest, Rescanned(digest, paths, t, remote), t, remote) == Rescanned(digest, paths, t, remote)
  {
    var again := Rescanned(digest, paths, t, remote);
    IndexSettles(digest, paths, t, remote);
    assert Gone(again, t) == {};
    assert Absent(digest, again, t, remote) == AbsentAmong(again, remote, {}, remote.Keys);
    SecondLooks(digest, paths, t, remote, pending, e);
  }

  /** An event of the second pass. */
  ghost predicate OfFile(digest: Sha256, paths: Paths, t: Tree, remote: Mirror, pending: set<string>, e: Event)
    requires Hashed(paths)
  {
    exists k :: k in Visible(t) && e in FileEvents(digest, paths, remote, k, t.files[k], k in pending)
  }

  /** The event of a file that the server lacks. */
  ghost predicate UntrackedStill(digest: Sha256, t: Tree, remote: Mirror, pending: set<string>, e: Event) {
    exists k :: k in Visible(t) && RemoteKey(k) !in remote && e == UntrackedAgain(digest, k, t.files[k], k in pending)
  }

  lemma SecondLooks(digest: Sha256, paths: Paths, t: Tree, remote: Mirror, pending: set<string>, e: Event)
    requires Hashed(paths) && Hashed(remote)
    ensures OfFile(digest, Rescanned(digest, paths, t, remote), t, remote, pending, e)
            <==> UntrackedStill(digest, t, remote, pending, e)
  {
    var again := Rescanned(digest, paths, t, remote);
    if k :| k in Visible(t) && e in FileEvents(digest, again, remote, k, t.files[k], k in pending) {
      SecondLook(digest, paths, t, remote, k, k in pending);
    }
    if k :| k in Visible(t) && RemoteKey(k) !in remote && e == UntrackedAgain(digest, k, t.files[k], k in pending) {
      SecondLook(digest, paths, t, remote, k, k in pending);
      assert e in FileEvents(digest, again, remote, k, t.files[k], k in pending);
    }
  }

  /** What a scan emits that has nothing new to see. */
  ghost predicate EmittedAgain(digest: Sha256, paths: Paths, t: Tree, remote: Mirror, pending: set<string>, e: Event) {
    || UntrackedStill(digest, t, remote, pending, e)
    || (exists k :: k in AbsentAmong(paths, remote, {}, remote.Keys) && e == Event(Missing, remote[k]))
  }

  lemma IndexSettles(digest: Sha256, paths: Paths, t: Tree, remote: Mirror)
    requires Hashed(paths) && Hashed(remote)
    ensures Rescanned(digest, Rescanned(digest, paths, t, remote), t, remote) == Rescanned(digest, paths, t, remote)
  {
    var again := Rescanned(digest, paths, t, remote);
    var a := Rescanned(digest, again, t, remote);
    assert a.Keys == again.Keys;
    forall k | k in again ensures a[k] == again[k] {
      if k in Visible(t) { SecondLook(digest, paths, t, remote, k, false); }
    }
  }

  function UntrackedAgain(digest: Sha256, k: string, f: File, wasPending: bool): Event {
    Event(Untracked, if wasPending then FileNodeNoHash(k, f) else FileNode(digest, k, f))
  }

  lemma SecondLook(digest: Sha256, paths: Paths, t: Tree, remote: Mirror, k: string, wasPending: bool)
    requires Hashed(paths) && Hashed(remote) && k in Visible(t)
    ensures var again := Rescanned(digest, paths, t, remote);
            && k in again && Entry(digest, again, remote, k, t.files[k]) == again[k]
            && FileEvents(digest, again, remote, k, t.files[k], wasPending)
               == if RemoteKey(k) in remote then [] else [UntrackedAgain(digest, k, t.files[k], wasPending)]
  {
    var again := Rescanned(digest, paths, t, remote);
    assert again[k] == Entry(digest, paths, remote, k, t.files[k]);
    assert !Changed(digest, again[k], t.files[k]);
  }
}

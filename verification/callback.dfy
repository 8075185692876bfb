/** client/main.cpp: what the watcher's callback does with an event, and the turn of the thread that
    asks for snapshots, when no other thread comes in between. */
module Callbacks {
  import opened Nodes
  import opened SharedMaps
  import opened JobQueue
  import opened Watcher

  function VerbOf(status: FileStatus): Method {
    match status
    case Created => PUT
    case Modified => PUT
    case Untracked => PUT
    case Erased => DELETE
    case Missing => GET
  }

  /** Directories, and the file of the container set-up. */
  predicate Ignored(node: Node) {
    node.isDir || NameOf(node.path) == COMPOSE_FILE
  }

  /** The requests enqueued for a sequence of events, given the keys that are pending. */
  function Enqueued(events: seq<Event>, pending: set<string>): seq<Request> {
    if |events| == 0 then []
    else
      var e := events[0];
      if Ignored(e.node) || e.node.path in pending then Enqueued(events[1..], pending)
      else [Request(VerbOf(e.status), e.node)] + Enqueued(events[1..], pending + {e.node.path})
  }

  /** The callback. */
  method OnEvent(pending: SharedMap<bool>, jobs: Jobs<Request>, e: Event)
    modifies pending, jobs
    ensures var key := e.node.path;
            if e.node.isDir || NameOf(key) == "docker-compose.yml" || key in old(pending.contents) then
              pending.contents == old(pending.contents) && jobs.coda == old(jobs.coda)
            else
              var verb := if e.status.Erased? then DELETE else if e.status.Missing? then GET else PUT;
              && pending.contents == old(pending.contents)[key := true]
              && jobs.coda == old(jobs.coda) + [Request(verb, e.node)]
  {
    if !e.node.isDir && NameOf(e.node.path) != COMPOSE_FILE {
      var key := e.node.path;
      var found := pending.Exist(key);
      if !found {
        pending.Set(key, true);
        jobs.Put(Request(VerbOf(e.status), e.node));
      }
    }
  }

  /** The events of a scan, one after the other. */
  method OnEvents(pending: SharedMap<bool>, jobs: Jobs<Request>, events: seq<Event>)
    modifies pending, jobs
    ensures jobs.coda == old(jobs.coda) + Enqueued(events, old(pending.contents).Keys)
  {
    for i := 0 to |events|
      invariant jobs.coda + Enqueued(events[i..], pending.contents.Keys)
             == old(jobs.coda) + Enqueued(events, old(pending.contents).Keys)
    {
      ghost var queued, keys := jobs.coda, pending.contents.Keys;
      OnEvent(pending, jobs, events[i]);
      assert events[i..][1..] == events[i + 1..] && events[i..][0] == events[i];
      ghost var req := Request(VerbOf(events[i].status), events[i].node);
      if Ignored(events[i].node) || events[i].node.path in keys {
        assert Enqueued(events[i..], keys) == Enqueued(events[i + 1..], keys);
      } else {
        assert pending.contents.Keys == keys + {events[i].node.path};
        assert queued + ([req] + Enqueued(events[i + 1..], pending.contents.Keys))
            == queued + [req] + Enqueued(events[i + 1..], pending.contents.Keys);
      }
    }
  }

  /** Every event that is not ignored leaves a request for its path, its own or an earlier one. */
  lemma {:induction false} EventsLeaveRequests(events: seq<Event>, pending: set<string>, e: Event)
    requires e in events && !Ignored(e.node) && e.node.path !in pending
    ensures exists r :: r in Enqueued(events, pending) && r.node.path == e.node.path
  {
    var first := events[0];
    var now := if Ignored(first.node) || first.node.path in pending then pending else pending + {first.node.path};
    var rest := Enqueued(events[1..], now);
    if first.node.path == e.node.path && first != e && (Ignored(first.node) || first.node.path in pending) {
      EventsLeaveRequests(events[1..], pending, e);
    } else if first.node.path == e.node.path {
      assert Enqueued(events, pending)[0].node.path == e.node.path;
    } else {
      EventsLeaveRequests(events[1..], now, e);
      var r :| r in rest && r.node.path == e.node.path;
      assert r in Enqueued(events, pending);
    }
  }

  /** And every request is that of an event that is not ignored. */
  lemma {:induction false} RequestsComeFromEvents(events: seq<Event>, pending: set<string>, r: Request)
    requires r in Enqueued(events, pending)
    ensures exists e :: e in events && !Ignored(e.node) && r == Request(VerbOf(e.status), e.node)
  {
    var first := events[0];
    if Ignored(first.node) || first.node.path in pending {
      RequestsComeFromEvents(events[1..], pending, r);
    } else if r != Request(VerbOf(first.status), first.node) {
      RequestsComeFromEvents(events[1..], pending + {first.node.path}, r);
    }
  }

  /** No two requests of a scan have the same key. */
  lemma {:induction false} RequestsHaveDistinctKeys(events: seq<Event>, pending: set<string>)
    ensures forall i :: 0 <= i < |Enqueued(events, pending)| ==> Enqueued(events, pending)[i].node.path !in pending
    ensures forall i, j :: 0 <= i < j < |Enqueued(events, pending)| ==>
              Enqueued(events, pending)[i].node.path != Enqueued(events, pending)[j].node.path
  {
    if |events| > 0 {
      var first := events[0];
      if Ignored(first.node) || first.node.path in pending {
        RequestsHaveDistinctKeys(events[1..], pending);
      } else {
        RequestsHaveDistinctKeys(events[1..], pending + {first.node.path});
        var rest := Enqueued(events[1..], pending + {first.node.path});
        var all := Enqueued(events, pending);
        forall i | 0 < i < |all| ensures all[i] == rest[i - 1] { }
      }
    }
  }
}

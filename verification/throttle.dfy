/** client/main.cpp: the watcher's callback, the thread that sends requests and the thread that asks
    for snapshots, interleaved over the pending map and the queue.

    Each thread is cut where another can come in between: the test of the pending map, the insertion,
    and the enqueueing are three steps. Taking a job and finishing it are two; finishing gives its key
    to `remove` once, which is what Clients.Client.HandleRequest does when the replies are those of
    the protocol. */
module Throttle {
  import opened Option
  import opened Nodes

  const SNAPSHOT_KEY := "SNAPSHOT"

  /** A queued request: its key is the path its node carries. `hashed`: the node has a hash. */
  datatype Job = Job(verb: Method, key: string, hashed: bool)

  datatype WatcherPc =
    | Resting
    | Looked(key: string, wasPending: bool)
    | Checked(job: Job)
    | Set(job: Job)

  datatype MainPc = Ready | SnapshotChecked | SnapshotQueued

  datatype State = State(pending: set<string>, queue: seq<Job>, io: Option<Job>, watcher: WatcherPc, main: MainPc)

  datatype Move =
    /** The second pass of a scan asks whether the file has a pending operation. */
    | Look(key: string)
    /** The callback gets an event of some file and tests the pending map. */
    | Emit(verb: Method, key: string)
    /** The callback gets the untracked event of the file that was looked at. */
    | EmitUntracked
    | Mark
    | Enqueue
    | MainCheck
    | MainEnqueue
    | MainMark
    | Take
    | Finish

  predicate Enabled(s: State, a: Move) {
    match a
    case Look(key) => s.watcher.Resting? && key != SNAPSHOT_KEY
    case Emit(verb, key) => (s.watcher.Resting? || s.watcher.Looked?) && key != SNAPSHOT_KEY
                             && (verb.PUT? || verb.GET? || verb.DELETE?)
    case EmitUntracked => s.watcher.Looked?
    case Mark => s.watcher.Checked?
    case Enqueue => s.watcher.Set?
    case MainCheck => s.main.Ready? && SNAPSHOT_KEY !in s.pending
    case MainEnqueue => s.main.SnapshotChecked?
    case MainMark => s.main.SnapshotQueued?
    case Take => s.io.None? && s.queue != []
    case Finish => s.io.Some?
  }

  /** The test of the callback: a key that is pending throttles the event. */
  function Test(s: State, job: Job): State {
    s.(watcher := if job.key in s.pending then Resting else Checked(job))
  }

  function Step(s: State, a: Move): State
    requires Enabled(s, a)
  {
    match a
    case Look(key) => s.(watcher := Looked(key, key in s.pending))
    case Emit(verb, key) => Test(s, Job(verb, key, true))
    case EmitUntracked => Test(s, Job(PUT, s.watcher.key, !s.watcher.wasPending))
    case Mark => s.(pending := s.pending + {s.watcher.job.key}, watcher := Set(s.watcher.job))
    case Enqueue => s.(queue := s.queue + [s.watcher.job], watcher := Resting)
    case MainCheck => s.(main := SnapshotChecked)
    case MainEnqueue => s.(queue := s.queue + [Job(SNAPSHOT, SNAPSHOT_KEY, true)], main := SnapshotQueued)
    case MainMark => s.(pending := s.pending + {SNAPSHOT_KEY}, main := Ready)
    case Take => s.(io := Some(s.queue[0]), queue := s.queue[1..])
    case Finish => s.(pending := s.pending - {s.io.value.key}, io := None)
  }

  /** The jobs queued or not yet finished, in order. */
  function Jobs(s: State): seq<Job> {
    (if s.io.Some? then [s.io.value] else []) + s.queue
  }

  ghost predicate HasJob(s: State, key: string) {
    exists i :: 0 <= i < |Jobs(s)| && Jobs(s)[i].key == key
  }

  ghost predicate Inv(s: State) {
    && (forall i, j :: 0 <= i < j < |Jobs(s)| ==> Jobs(s)[i].key != Jobs(s)[j].key)
    && (forall i :: 0 <= i < |Jobs(s)| && Jobs(s)[i].key != SNAPSHOT_KEY ==> Jobs(s)[i].key in s.pending)
    && (forall key :: key in s.pending && key != SNAPSHOT_KEY ==>
          HasJob(s, key) || (s.watcher.Set? && s.watcher.job.key == key))
    && (s.watcher.Looked? ==> s.watcher.key != SNAPSHOT_KEY)
    && (s.watcher.Checked? ==> s.watcher.job.key != SNAPSHOT_KEY && s.watcher.job.key !in s.pending)
    && (s.watcher.Set? ==>
          s.watcher.job.key != SNAPSHOT_KEY && s.watcher.job.key in s.pending && !HasJob(s, s.watcher.job.key))
    && (s.main.SnapshotChecked? ==> !HasJob(s, SNAPSHOT_KEY) && SNAPSHOT_KEY !in s.pending)
    && (s.main.Ready? && SNAPSHOT_KEY !in s.pending ==> !HasJob(s, SNAPSHOT_KEY))
    && (s.main.SnapshotQueued? ==> SNAPSHOT_KEY !in s.pending)
  }

  ghost predicate Initial(s: State) {
    s == State({}, [], None, Resting, Ready)
  }

  ghost predicate IsRun(ss: seq<State>, acts: seq<Move>) {
    && |ss| == |acts| + 1
    && forall i :: 0 <= i < |acts| ==> Enabled(ss[i], acts[i]) && ss[i + 1] == Step(ss[i], acts[i])
  }

  lemma OneMoreJob(s: State, t: State, job: Job)
    requires t.io == s.io && t.queue == s.queue + [job]
    ensures Jobs(t) == Jobs(s) + [job]
    ensures forall key :: HasJob(t, key) <==> HasJob(s, key) || key == job.key
  {
    assert Jobs(t) == Jobs(s) + [job];
    forall key ensures HasJob(t, key) <==> HasJob(s, key) || key == job.key {
      if HasJob(s, key) {
        var i :| 0 <= i < |Jobs(s)| && Jobs(s)[i].key == key;
        assert Jobs(t)[i].key == key;
      }
      assert Jobs(t)[|Jobs(s)|].key == job.key;
    }
  }

  lemma SameJobs(s: State, t: State)
    requires Jobs(t) == Jobs(s)
    ensures forall key :: HasJob(t, key) <==> HasJob(s, key)
  {
  }

  lemma OneJobLess(s: State, t: State)
    requires s.io.Some? && t.io.None? && t.queue == s.queue
    requires forall i, j :: 0 <= i < j < |Jobs(s)| ==> Jobs(s)[i].key != Jobs(s)[j].key
    ensures Jobs(s) == [s.io.value] + Jobs(t)
    ensures forall key :: HasJob(t, key) <==> HasJob(s, key) && key != s.io.value.key
  {
    assert Jobs(s) == [s.io.value] + Jobs(t);
    forall key ensures HasJob(t, key) <==> HasJob(s, key) && key != s.io.value.key {
      if HasJob(t, key) {
        var i :| 0 <= i < |Jobs(t)| && Jobs(t)[i].key == key;
        assert Jobs(s)[i + 1].key == key && Jobs(s)[0] == s.io.value;
      }
      if HasJob(s, key) && key != s.io.value.key {
        var i :| 0 <= i < |Jobs(s)| && Jobs(s)[i].key == key;
        assert Jobs(t)[i - 1].key == key;
      }
    }
  }

  lemma StepKeepsInv(s: State, a: Move)
    requires Inv(s) && Enabled(s, a)
    ensures Inv(Step(s, a))
  {
    var t := Step(s, a);
    match a {
      case Enqueue => OneMoreJob(s, t, s.watcher.job);
      case MainEnqueue => OneMoreJob(s, t, Job(SNAPSHOT, SNAPSHOT_KEY, true));
      case Take =>
        assert Jobs(t) == Jobs(s);
        SameJobs(s, t);
      case Finish => FinishKeepsInv(s);
      case _ =>
        assert Jobs(t) == Jobs(s);
        SameJobs(s, t);
        if a.Mark? { CheckedHasNoJob(s); }
    }
  }

  lemma FinishKeepsInv(s: State)
    requires Inv(s) && s.io.Some?
    ensures Inv(Step(s, Finish))
  {
    var t := Step(s, Finish);
    OneJobLess(s, t);
    assert Jobs(s)[0] == s.io.value;
    forall i | 0 <= i < |Jobs(t)| ensures Jobs(t)[i] == Jobs(s)[i + 1] && Jobs(t)[i].key != s.io.value.key { }
    forall i, j | 0 <= i < j < |Jobs(t)| ensures Jobs(t)[i].key != Jobs(t)[j].key {
      assert Jobs(t)[i] == Jobs(s)[i + 1] && Jobs(t)[j] == Jobs(s)[j + 1];
    }
  }

  lemma CheckedHasNoJob(s: State)
    requires Inv(s) && s.watcher.Checked?
    ensures !HasJob(s, s.watcher.job.key)
  {
  }

  /** Throttle safety, over all interleavings: at every point of every run a file key has at most one
      job queued or unfinished, the key of every such job is pending, and a pending file key has a job
      or the watcher is just about to enqueue it. */
  lemma {:induction false} ThrottleIsSafe(ss: seq<State>, acts: seq<Move>, n: nat)
    requires IsRun(ss, acts) && Initial(ss[0]) && n <= |acts|
    ensures Inv(ss[n])
    ensures forall i, j :: 0 <= i < j < |Jobs(ss[n])| ==> Jobs(ss[n])[i].key != Jobs(ss[n])[j].key
    ensures forall key :: key != SNAPSHOT_KEY ==>
              (key in ss[n].pending <==> HasJob(ss[n], key) || (ss[n].watcher.Set? && ss[n].watcher.job.key == key))
  {
    if n > 0 {
      ThrottleIsSafe(ss, acts, n - 1);
      StepKeepsInv(ss[n - 1], acts[n - 1]);
      assert ss[n - 1 + 1] == Step(ss[n - 1], acts[n - 1]);
    }
  }

  /** The jobs a step puts into the queue, and those the thread that sends takes out of it. */
  function PutBy(s: State, a: Move): seq<Job>
    requires Enabled(s, a)
  {
    match a
    case Enqueue => [s.watcher.job]
    case MainEnqueue => [Job(SNAPSHOT, SNAPSHOT_KEY, true)]
    case _ => []
  }

  function TakenBy(a: Move, t: State): seq<Job> {
    if a.Take? && t.io.Some? then [t.io.value] else []
  }

  /** The same over the first `n` steps of a run. */
  ghost function Puts(ss: seq<State>, acts: seq<Move>, n: nat): seq<Job>
    requires IsRun(ss, acts) && n <= |acts|
  {
    if n == 0 then [] else Puts(ss, acts, n - 1) + PutBy(ss[n - 1], acts[n - 1])
  }

  ghost function Taken(ss: seq<State>, acts: seq<Move>, n: nat): seq<Job>
    requires IsRun(ss, acts) && n <= |acts|
  {
    if n == 0 then [] else Taken(ss, acts, n - 1) + TakenBy(acts[n - 1], ss[n])
  }

  lemma StepQueues(s: State, a: Move)
    requires Enabled(s, a)
    ensures s.queue + PutBy(s, a) == TakenBy(a, Step(s, a)) + Step(s, a).queue
  {
    if a.Take? { assert [s.queue[0]] + s.queue[1..] == s.queue; }
  }

  lemma Regroup(taken: seq<Job>, q0: seq<Job>, put: seq<Job>, took: seq<Job>, q1: seq<Job>)
    requires q0 + put == took + q1
    ensures taken + q0 + put == taken + took + q1
  {
    assert taken + q0 + put == taken + (q0 + put);
  }

  /** Whatever the interleaving, jobs are taken in the order they were put, none twice and none passed
      over: those put are those taken and, after them, those still queued. */
  lemma {:induction false} TakenInOrder(ss: seq<State>, acts: seq<Move>, n: nat)
    requires IsRun(ss, acts) && Initial(ss[0]) && n <= |acts|
    ensures Puts(ss, acts, n) == Taken(ss, acts, n) + ss[n].queue
  {
    if n > 0 {
      TakenInOrder(ss, acts, n - 1);
      assert ss[n - 1 + 1] == Step(ss[n - 1], acts[n - 1]);
      StepQueues(ss[n - 1], acts[n - 1]);
      Regroup(Taken(ss, acts, n - 1), ss[n - 1].queue, PutBy(ss[n - 1], acts[n - 1]), TakenBy(acts[n - 1], ss[n]),
              ss[n].queue);
    }
  }

  /** A key has two forms, so a file has at most two jobs at a time. */
  lemma AtMostTwoJobsPerFile(s: State, i: nat, j: nat, k: nat)
    requires Inv(s) && i < j < k < |Jobs(s)|
    ensures !(Absolute(Jobs(s)[i].key) == Absolute(Jobs(s)[j].key) == Absolute(Jobs(s)[k].key))
  {
    var a, b, c := Jobs(s)[i].key, Jobs(s)[j].key, Jobs(s)[k].key;
    SameAbsolute(a, b);
    SameAbsolute(b, c);
    SameAbsolute(a, c);
  }

  /** Two different keys of one file are its local and its remote form. */
  lemma SameAbsolute(a: string, b: string)
    ensures Absolute(a) == Absolute(b) && a != b ==> IsLocal(a) != IsLocal(b)
  {
    if IsLocal(a) && IsLocal(b) && a[2..] == b[2..] {
      assert a[..3][..2] == ".." && b[..3][..2] == "..";
      assert a == a[..2] + a[2..] && b == b[..2] + b[2..];
    }
  }

  /** The key the other form of a path would have. */
  function OtherForm(key: string): string {
    if IsLocal(key) then RemoteKey(key) else LocalKey(key)
  }

  /** A job of the same file, under the other form of its key, is pending. */
  predicate OtherPending(s: State, key: string) {
    OtherForm(key) in s.pending && OtherForm(key) != key && Absolute(OtherForm(key)) == Absolute(key)
  }

  ghost predicate TwoJobs(s: State, file: string) {
    exists i, j :: 0 <= i < j < |Jobs(s)| && Absolute(Jobs(s)[i].key) == file && Absolute(Jobs(s)[j].key) == file
  }

  ghost predicate OneJobEach(s: State) {
    forall file :: !TwoJobs(s, file)
  }

  /** A file has two jobs if and only if both forms of its key have one. */
  lemma TwoJobsExactly(s: State, file: string)
    requires Inv(s)
    ensures TwoJobs(s, file) <==> IsRemote(file) && HasJob(s, file) && HasJob(s, LocalKey(file))
  {
    var jobs := Jobs(s);
    if TwoJobs(s, file) {
      var i, j :| 0 <= i < j < |jobs| && Absolute(jobs[i].key) == file && Absolute(jobs[j].key) == file;
      assert jobs[i].key != jobs[j].key;
      BothForms(jobs[i].key, jobs[j].key);
    }
    if IsRemote(file) && HasJob(s, file) && HasJob(s, LocalKey(file)) {
      var i :| 0 <= i < |jobs| && jobs[i].key == file;
      var j :| 0 <= j < |jobs| && jobs[j].key == LocalKey(file);
      KeysCorrespond(LocalKey(file), file);
      assert Absolute(jobs[i].key) == file && Absolute(jobs[j].key) == file && i != j;
    }
  }

  /** Two different keys of one file are its path and its path with ".." before it. */
  lemma BothForms(a: string, b: string)
    requires Absolute(a) == Absolute(b) && a != b
    ensures var file := Absolute(a);
            IsRemote(file) && ((a == file && b == LocalKey(file)) || (a == LocalKey(file) && b == file))
  {
    SameAbsolute(a, b);
    if IsLocal(a) { LocalOf(a); } else { LocalOf(b); }
  }

  lemma LocalOf(key: string)
    requires IsLocal(key)
    ensures IsRemote(Absolute(key)) && key == LocalKey(Absolute(key)) && Absolute(Absolute(key)) == Absolute(key)
  {
    assert key[..3][2] == '/' && key[..3][..2] == ".." && key == key[..2] + key[2..];
  }

  /** Enqueueing a job leaves its file with two jobs if and only if the other form of its key is
      pending at that moment. */
  lemma EnqueueDoubles(s: State)
    requires Inv(s) && s.watcher.Set?
    ensures TwoJobs(Step(s, Enqueue), Absolute(s.watcher.job.key)) <==> OtherPending(s, s.watcher.job.key)
  {
    var key, t := s.watcher.job.key, Step(s, Enqueue);
    OneMoreJob(s, t, s.watcher.job);
    StepKeepsInv(s, Enqueue);
    TwoJobsExactly(t, Absolute(key));
    OtherHasJob(s);
    FormsOf(key);
  }

  /** While a job is about to be enqueued, the other form of its key is pending if and only if it has a
      job. */
  lemma OtherHasJob(s: State)
    requires Inv(s) && s.watcher.Set?
    ensures OtherPending(s, s.watcher.job.key) <==>
              var key := s.watcher.job.key;
              OtherForm(key) != key && Absolute(OtherForm(key)) == Absolute(key) && HasJob(s, OtherForm(key))
  {
    var key := s.watcher.job.key;
    if OtherForm(key) != key && Absolute(OtherForm(key)) == Absolute(key) {
      BothForms(key, OtherForm(key));
      assert OtherForm(key) != SNAPSHOT_KEY;
    }
  }

  /** A key has another form that names the same file if and only if its file is a path on the wire,
      and then the two forms are that path and the local one. */
  lemma FormsOf(key: string)
    ensures var file, other := Absolute(key), OtherForm(key);
            && (other != key && Absolute(other) == file <==> IsRemote(file))
            && (IsRemote(file) ==> (key == file && other == LocalKey(file)) || (key == LocalKey(file) && other == file))
  {
    var file, other := Absolute(key), OtherForm(key);
    if IsRemote(file) {
      KeysCorrespond(LocalKey(file), file);
      if IsLocal(key) { LocalOf(key); }
    }
    if other != key && Absolute(other) == file { BothForms(key, other); }
  }

  /** No other step makes a second job for a file. */
  lemma OnlyEnqueueDoubles(s: State, a: Move, file: string)
    requires Inv(s) && Enabled(s, a) && TwoJobs(Step(s, a), file) && !TwoJobs(s, file)
    ensures a.Enqueue? && file == Absolute(s.watcher.job.key)
  {
    StepKeepsInv(s, a);
    TwoJobsExactly(s, file);
    TwoJobsExactly(Step(s, a), file);
    NewJob(s, a, file);
    NewJob(s, a, LocalKey(file));
    KeysCorrespond(LocalKey(file), file);
    assert SNAPSHOT_KEY != file && SNAPSHOT_KEY != LocalKey(file);
  }

  /** Where jobs come from. */
  lemma NewJob(s: State, a: Move, key: string)
    requires Inv(s) && Enabled(s, a)
    ensures HasJob(Step(s, a), key) ==>
              HasJob(s, key) || (a.Enqueue? && key == s.watcher.job.key) || (a.MainEnqueue? && key == SNAPSHOT_KEY)
  {
    var t := Step(s, a);
    match a {
      case Enqueue => OneMoreJob(s, t, s.watcher.job);
      case MainEnqueue => OneMoreJob(s, t, Job(SNAPSHOT, SNAPSHOT_KEY, true));
      case Finish => OneJobLess(s, t);
      case _ =>
        assert Jobs(t) == Jobs(s);
        SameJobs(s, t);
    }
  }

  /** A run has at most one job for every file all the time if and only if no job is ever enqueued
      while the other form of its key is pending. */
  lemma OneJobEachExactly(ss: seq<State>, acts: seq<Move>)
    requires IsRun(ss, acts) && Initial(ss[0])
    ensures (forall n :: 0 <= n <= |acts| ==> OneJobEach(ss[n]))
            <==> forall n :: 0 <= n < |acts| && acts[n].Enqueue? ==> !OtherPending(ss[n], ss[n].watcher.job.key)
  {
    if forall n :: 0 <= n <= |acts| ==> OneJobEach(ss[n]) {
      forall n | 0 <= n < |acts| && acts[n].Enqueue? ensures !OtherPending(ss[n], ss[n].watcher.job.key) {
        ThrottleIsSafe(ss, acts, n);
        EnqueueDoubles(ss[n]);
        assert OneJobEach(ss[n + 1]);
      }
    }
    if forall n :: 0 <= n < |acts| && acts[n].Enqueue? ==> !OtherPending(ss[n], ss[n].watcher.job.key) {
      forall n | 0 <= n <= |acts| ensures OneJobEach(ss[n]) { StaysOneJobEach(ss, acts, n); }
    }
  }

  lemma {:induction false} StaysOneJobEach(ss: seq<State>, acts: seq<Move>, n: nat)
    requires IsRun(ss, acts) && Initial(ss[0]) && n <= |acts|
    requires forall m :: 0 <= m < n && acts[m].Enqueue? ==> !OtherPending(ss[m], ss[m].watcher.job.key)
    ensures OneJobEach(ss[n])
  {
    if n > 0 {
      var s, a := ss[n - 1], acts[n - 1];
      StaysOneJobEach(ss, acts, n - 1);
      ThrottleIsSafe(ss, acts, n - 1);
      assert ss[n - 1 + 1] == Step(s, a);
      forall file ensures !TwoJobs(ss[n], file) {
        if TwoJobs(ss[n], file) {
          OnlyEnqueueDoubles(s, a, file);
          EnqueueDoubles(s);
        }
      }
    }
  }

  /** And two it can have: a GET of a file only the server has, and then a PUT of the same file made
      locally meanwhile, are both let through, under the two forms of its key. */
  lemma TwoJobsForOneFile() returns (ss: seq<State>, acts: seq<Move>)
    ensures IsRun(ss, acts) && Initial(ss[0])
    ensures var s := ss[|acts|];
            |Jobs(s)| == 2 && Absolute(Jobs(s)[0].key) == Absolute(Jobs(s)[1].key)
            && Jobs(s)[0].verb == GET && Jobs(s)[1].verb == PUT
  {
    acts := [Emit(GET, "/d/f"), Mark, Enqueue, Emit(PUT, "../d/f"), Mark, Enqueue];
    var s0 := State({}, [], None, Resting, Ready);
    var s1 := Step(s0, acts[0]);
    var s2 := Step(s1, acts[1]);
    var s3 := Step(s2, acts[2]);
    var s4 := Step(s3, acts[3]);
    var s5 := Step(s4, acts[4]);
    var s6 := Step(s5, acts[5]);
    ss := [s0, s1, s2, s3, s4, s5, s6];
    assert "../d/f"[..3] == "../" && "../d/f"[2..] == "/d/f" && "/d/f"[..3][0] == '/';
    assert s6.queue == [Job(GET, "/d/f", true), Job(PUT, "../d/f", true)];
  }

  predicate OfWatcher(a: Move) {
    a.Look? || a.Emit? || a.EmitUntracked? || a.Mark? || a.Enqueue?
  }

  /** The look at `key` at point `l` is the one an untracked event at point `n` goes back to. */
  ghost predicate LooksBack(acts: seq<Move>, l: nat, n: nat, key: string) {
    && l < n <= |acts| && acts[l] == Look(key)
    && forall m :: l < m < n ==> !OfWatcher(acts[m])
  }

  /** A job with that key is finished between the two points. */
  ghost predicate FinishedBetween(ss: seq<State>, acts: seq<Move>, key: string, l: nat, n: nat)
    requires IsRun(ss, acts) && n <= |acts|
  {
    exists m :: l < m < n && acts[m].Finish? && ss[m].io.Some? && ss[m].io.value.key == key
  }

  /** When the watcher has looked at a file, there was the look, and it does not matter since when. */
  lemma {:induction false} LookedBefore(ss: seq<State>, acts: seq<Move>, n: nat) returns (l: nat)
    requires IsRun(ss, acts) && Initial(ss[0]) && n <= |acts| && ss[n].watcher.Looked?
    ensures LooksBack(acts, l, n, ss[n].watcher.key) && ss[n].watcher.wasPending == (ss[n].watcher.key in ss[l].pending)
  {
    assert ss[n - 1 + 1] == Step(ss[n - 1], acts[n - 1]);
    if acts[n - 1].Look? {
      l := n - 1;
    } else {
      l := LookedBefore(ss, acts, n - 1);
    }
  }

  /** A pending key of a file disappears only by the end of a job with that key, and while the watcher
      rests it does not come back. */
  lemma {:induction false} GoneByFinish(ss: seq<State>, acts: seq<Move>, key: string, l: nat, n: nat)
    requires IsRun(ss, acts) && LooksBack(acts, l, n, key) && key in ss[l].pending && key != SNAPSHOT_KEY
    ensures key !in ss[n].pending <==> FinishedBetween(ss, acts, key, l, n)
  {
    var m := n - 1;
    assert ss[m + 1] == Step(ss[m], acts[m]) && Enabled(ss[m], acts[m]);
    if m > l {
      GoneByFinish(ss, acts, key, l, m);
      assert FinishedBetween(ss, acts, key, l, n) <==>
             FinishedBetween(ss, acts, key, l, m) || (acts[m].Finish? && ss[m].io.value.key == key);
    }
  }

  /** In every run, a PUT that lacks its hash passes the callback if and only if the file's key was
      pending when the scan looked at the file and a job with that key has been finished since. */
  lemma UnhashedExactly(ss: seq<State>, acts: seq<Move>, n: nat)
    requires IsRun(ss, acts) && Initial(ss[0]) && n < |acts| && acts[n].EmitUntracked?
    ensures ss[n].watcher.Looked? && (
            var key := ss[n].watcher.key;
            ss[n + 1].watcher == Checked(Job(PUT, key, false)) <==>
              exists l: nat :: LooksBack(acts, l, n, key)
                               && key in ss[l].pending && FinishedBetween(ss, acts, key, l, n))
  {
    assert Enabled(ss[n], acts[n]) && ss[n + 1] == Step(ss[n], acts[n]);
    var key := ss[n].watcher.key;
    var l := LookedBefore(ss, acts, n);
    assert Enabled(ss[l], acts[l]);
    if key in ss[l].pending { GoneByFinish(ss, acts, key, l, n); }
    forall k: nat | LooksBack(acts, k, n, key) ensures k == l { }
  }

  /** And it can be queued: the file is looked at while its PUT is under way, and the event comes when
      the PUT is finished. */
  lemma UnhashedIsReachable() returns (ss: seq<State>, acts: seq<Move>)
    ensures IsRun(ss, acts) && Initial(ss[0])
    ensures ss[|acts|].queue == [Job(PUT, "../d/f", false)]
  {
    acts := [Emit(PUT, "../d/f"), Mark, Enqueue, Take, Look("../d/f"), Finish, EmitUntracked, Mark, Enqueue];
    var s0 := State({}, [], None, Resting, Ready);
    var file := "../d/f";
    var job, unhashed := Job(PUT, file, true), Job(PUT, file, false);
    var s1 := State({}, [], None, Checked(job), Ready);
    var s2 := State({file}, [], None, Set(job), Ready);
    var s3 := State({file}, [job], None, Resting, Ready);
    var s4 := State({file}, [], Some(job), Resting, Ready);
    var s5 := State({file}, [], Some(job), Looked(file, true), Ready);
    var s6 := State({}, [], None, Looked(file, true), Ready);
    var s7 := State({}, [], None, Checked(unhashed), Ready);
    var s8 := State({file}, [], None, Set(unhashed), Ready);
    var s9 := State({file}, [unhashed], None, Resting, Ready);
    ss := [s0, s1, s2, s3, s4, s5, s6, s7, s8, s9];
  }

  /** The producer of snapshots can get to enqueue one, within `n` steps of the three threads. */
  ghost predicate AsksWithin(s: State, n: nat)
    decreases n
  {
    s.main.SnapshotChecked? || (n > 0 && exists a :: Enabled(s, a) && AsksWithin(Step(s, a), n - 1))
  }

  /** Some continuation has a snapshot enqueued. */
  ghost predicate CanAsk(s: State) {
    exists n: nat :: AsksWithin(s, n)
  }

  lemma AsksAfter(s: State, a: Move)
    requires Enabled(s, a) && CanAsk(Step(s, a))
    ensures CanAsk(s)
  {
    var n: nat :| AsksWithin(Step(s, a), n);
    assert AsksWithin(s, n + 1);
  }

  /** While there is a job for it, a snapshot key that is pending is removed when the queue has been
      worked off that far, and the producer goes on. */
  lemma {:induction false} WorkedOff(s: State)
    requires Inv(s) && s.main.Ready? && HasJob(s, SNAPSHOT_KEY)
    ensures CanAsk(s)
    decreases |Jobs(s)|, |s.queue|
  {
    if s.io.None? {
      var t := Step(s, Take);
      assert Jobs(t) == Jobs(s);
      SameJobs(s, t);
      StepKeepsInv(s, Take);
      WorkedOff(t);
      AsksAfter(s, Take);
    } else {
      var t := Step(s, Finish);
      OneJobLess(s, t);
      StepKeepsInv(s, Finish);
      if s.io.value.key == SNAPSHOT_KEY {
        assert AsksWithin(Step(t, MainCheck), 0);
        AsksAfter(t, MainCheck);
      } else {
        WorkedOff(t);
      }
      AsksAfter(s, Finish);
    }
  }

  /** The snapshot key is pending, and nothing is left that would ever remove it. */
  ghost predicate Stuck(s: State) {
    s.main.Ready? && SNAPSHOT_KEY in s.pending && !HasJob(s, SNAPSHOT_KEY)
  }

  /** From the second step of the producer on, its job is finished before the third. */
  ghost predicate Overtaken(s: State) {
    s.main.SnapshotQueued? && !HasJob(s, SNAPSHOT_KEY)
  }

  lemma {:induction false} NeverAsks(s: State, n: nat)
    requires Inv(s) && (Stuck(s) || Overtaken(s))
    ensures !AsksWithin(s, n)
    decreases n
  {
    if n > 0 {
      forall a | Enabled(s, a) ensures !AsksWithin(Step(s, a), n - 1) {
        StepKeepsInv(s, a);
        if Stuck(s) { StuckStays(s, a); } else { OvertakenStays(s, a); }
        NeverAsks(Step(s, a), n - 1);
      }
    }
  }

  lemma OvertakenStays(s: State, a: Move)
    requires Inv(s) && Overtaken(s) && Enabled(s, a)
    ensures Overtaken(Step(s, a)) || Stuck(Step(s, a))
  {
    NewJob(s, a, SNAPSHOT_KEY);
  }

  /** Exactly when some continuation still asks for a snapshot: unless the producer is stuck, or has
      been overtaken and is about to be. */
  lemma CanAskExactly(s: State)
    requires Inv(s)
    ensures CanAsk(s) <==> !Stuck(s) && !Overtaken(s)
  {
    if Stuck(s) || Overtaken(s) {
      forall n: nat ensures !AsksWithin(s, n) { NeverAsks(s, n); }
    } else if s.main.SnapshotChecked? {
      assert AsksWithin(s, 0);
    } else if s.main.SnapshotQueued? {
      var t := Step(s, MainMark);
      SameJobs(s, t);
      StepKeepsInv(s, MainMark);
      WorkedOff(t);
      AsksAfter(s, MainMark);
    } else if SNAPSHOT_KEY in s.pending {
      WorkedOff(s);
    } else {
      assert AsksWithin(Step(s, MainCheck), 0);
      AsksAfter(s, MainCheck);
    }
  }

  /** The producer marks its key after it has enqueued the job. Snapshots go on after that if and only
      if the job is then still queued or unfinished. */
  lemma StuckExactly(s: State)
    requires Inv(s) && Enabled(s, MainMark)
    ensures CanAsk(Step(s, MainMark)) <==> HasJob(s, SNAPSHOT_KEY)
  {
    SameJobs(s, Step(s, MainMark));
    StepKeepsInv(s, MainMark);
    CanAskExactly(Step(s, MainMark));
  }

  /** That it can happen: the job is taken and finished between the two steps of the producer. */
  lemma StuckIsReachable() returns (ss: seq<State>, acts: seq<Move>)
    ensures IsRun(ss, acts) && Initial(ss[0]) && Stuck(ss[|acts|])
  {
    acts := [MainCheck, MainEnqueue, Take, Finish, MainMark];
    var s0 := State({}, [], None, Resting, Ready);
    var s1 := Step(s0, acts[0]);
    var s2 := Step(s1, acts[1]);
    var s3 := Step(s2, acts[2]);
    var s4 := Step(s3, acts[3]);
    var s5 := Step(s4, acts[4]);
    ss := [s0, s1, s2, s3, s4, s5];
    assert Jobs(s5) == [];
  }

  lemma StuckStays(s: State, a: Move)
    requires Inv(s) && Stuck(s) && Enabled(s, a)
    ensures Stuck(Step(s, a))
  {
    var t := Step(s, a);
    match a {
      case Enqueue => OneMoreJob(s, t, s.watcher.job);
      case Finish =>
        OneJobLess(s, t);
        assert Jobs(s)[0] == s.io.value;
      case MainCheck =>
      case MainEnqueue =>
      case MainMark =>
      case _ =>
        assert Jobs(t) == Jobs(s);
        SameJobs(s, t);
    }
  }

  /** And that it is for good: from then on, in every run, no snapshot is ever enqueued again. */
  lemma {:induction false} NoSnapshotOnceStuck(ss: seq<State>, acts: seq<Move>, i: nat, n: nat)
    requires IsRun(ss, acts) && Initial(ss[0]) && i <= n <= |acts| && Stuck(ss[i])
    ensures Stuck(ss[n]) && (n < |acts| ==> !acts[n].MainEnqueue?)
    decreases n
  {
    if i < n {
      NoSnapshotOnceStuck(ss, acts, i, n - 1);
      ThrottleIsSafe(ss, acts, n - 1);
      StuckStays(ss[n - 1], acts[n - 1]);
      assert ss[n - 1 + 1] == Step(ss[n - 1], acts[n - 1]);
    }
    if n < |acts| { assert Enabled(ss[n], acts[n]); }
  }
}

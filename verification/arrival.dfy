/** What rounds of scanning and draining (module Convergence) bring to the server: whether it has a file
    for a local one, whether with the same content, and whether it gives the file back. */
module Arrival {
  import opened Wire
  import opened Option
  import opened Hashing
  import opened Nodes
  import opened Stores
  import opened Clients
  import opened Rpc
  import opened Watcher
  import opened Callbacks
  import opened Convergence

  /** What may hold of a local file at the server: it has a file for it, one with the same hash, one it
      answers a GET with. */
  datatype Fact = Present | Same | Retrievable

  ghost predicate Holds(digest: Sha256, fact: Fact, w: World, key: string) {
    var full := FullPath(w.user, key);
    match fact
    case Present => full in w.store.files
    case Same => LocalKey(key) in w.local && full in w.store.files
                 && Sha(digest, w.store.files[full]) == Sha(digest, w.local[LocalKey(key)])
    case Retrievable => Served(w, key)
  }

  /** A PUT of a file as it is leaves all three, save that a file which is there already, without an
      entry, gets none. */
  lemma FactAfterPut(digest: Sha256, fact: Fact, w: World, node: Node, body: Bytes)
    requires |node.hashes| > 0 && node.LastHash() == Sha(digest, body)
    requires LocalKey(node.AbsolutePath()) in w.local && w.local[LocalKey(node.AbsolutePath())] == body
    ensures var key := node.AbsolutePath();
            Holds(digest, fact, Put(digest, w, node, body), key)
            <==> (fact.Retrievable? ==> Holds(digest, Retrievable, w, key) || !Holds(digest, Same, w, key))
  {
    ServedExactly(digest, w, node, body);
    if !AlreadyThere(digest, w.store, w.user, node.AbsolutePath(), node.LastHash()) {
      PutKeepsWhatWasDeclared(digest, w, node, body);
    }
  }

  /** Two worlds that agree on a key agree on the facts about it. */
  lemma FactElsewhere(digest: Sha256, fact: Fact, w: World, w1: World, key: string)
    requires AgreeAt(w, w1, key)
    ensures Holds(digest, fact, w1, key) <==> Holds(digest, fact, w, key)
  {
  }

  /** A PUT of a round sends its file as it is. */
  lemma DrainSendsFile(digest: Sha256, s: Site, log: Log)
    requires |log| > 0 && Sound(s) && GoodLog(digest, s, log) && log[|log| - 1].0.req.verb.PUT?
    ensures var call, body := log[|log| - 1].0, log[|log| - 1].1;
            var w, k := Replay(digest, s.w, log[..|log| - 1]), LocalKey(KeyOf(log[|log| - 1].0));
            |call.req.node.hashes| > 0 && call.req.node.LastHash() == Sha(digest, body) && k in w.local
            && w.local[k] == body
  {
    var n := |log| - 1;
    GoodPrefix(digest, s, log, n);
    DrainKeepsFiles(digest, s, log[..n]);
    assert JobOk(digest, s, log[n].0.req);
  }

  /** What draining does for a local file: a fact holds afterwards if and only if it did before, or the
      file was sent; save that what is there already gets no entry by being sent. */
  lemma {:induction false} DrainFact(digest: Sha256, fact: Fact, s: Site, log: Log, key: string)
    requires Sound(s) && GoodLog(digest, s, log) && IsRemote(key) && LocalKey(key) in s.w.local
    ensures Holds(digest, fact, Replay(digest, s.w, log), key) <==>
              Holds(digest, fact, s.w, key)
              || (HasJob(log, PUT, key) && (fact.Retrievable? ==> !Holds(digest, Same, s.w, key)))
    decreases |log|
  {
    var n := |log| - 1;
    if n >= 0 {
      GoodPrefix(digest, s, log, n);
      HasJobPrefix(log, PUT, key);
      DrainFact(digest, fact, s, log[..n], key);
      DrainFact(digest, Same, s, log[..n], key);
      LastCallFact(digest, fact, s, log, key);
    }
  }

  /** What the last call of a log does for a fact about a local file. */
  lemma {:induction false} LastCallFact(digest: Sha256, fact: Fact, s: Site, log: Log, key: string)
    requires |log| > 0 && Sound(s) && GoodLog(digest, s, log) && IsRemote(key) && LocalKey(key) in s.w.local
    ensures var before, call := Replay(digest, s.w, log[..|log| - 1]), log[|log| - 1].0;
            Holds(digest, fact, Replay(digest, s.w, log), key) <==>
              if call.req.verb.PUT? && KeyOf(call) == key then
                fact.Retrievable? ==> Holds(digest, Retrievable, before, key) || !Holds(digest, Same, before, key)
              else Holds(digest, fact, before, key)
  {
    var n := |log| - 1;
    var before, call := Replay(digest, s.w, log[..n]), log[n].0;
    if call.req.verb.SNAPSHOT? {
      assert Snapshot(before).store == before.store && Snapshot(before).local == before.local;
    } else if KeyOf(call) != key {
      OtherKeysUntouched(digest, before, call, log[n].1, key);
      FactElsewhere(digest, fact, before, Replay(digest, s.w, log), key);
    } else {
      assert JobOk(digest, s, call.req) && LocalKey(key) in s.tree.files;
      DrainSendsFile(digest, s, log);
      FactAfterPut(digest, fact, before, call.req.node, log[n].1);
    }
  }

  /** For a file that draining has fetched, all three hold. */
  lemma {:induction false} FetchedFact(digest: Sha256, fact: Fact, s: Site, log: Log, key: string)
    requires Sound(s) && GoodLog(digest, s, log) && IsRemote(key)
    requires LocalKey(key) !in s.w.local && LocalKey(key) in Replay(digest, s.w, log).local
    ensures Holds(digest, fact, Replay(digest, s.w, log), key)
  {
    var n := |log| - 1;
    GoodPrefix(digest, s, log, n);
    DrainKey(digest, s, log[..n], key);
    var before, call := Replay(digest, s.w, log[..n]), log[n].0;
    if call.req.verb.SNAPSHOT? {
      FetchedFact(digest, fact, s, log[..n], key);
      assert Snapshot(before).store == before.store && Snapshot(before).local == before.local;
    } else if KeyOf(call) != key {
      OtherKeysUntouched(digest, before, call, log[n].1, key);
      FetchedFact(digest, fact, s, log[..n], key);
      FactElsewhere(digest, fact, before, Replay(digest, s.w, log), key);
    } else {
      FetchedNow(digest, fact, s, log, key);
    }
  }

  lemma {:induction false} FetchedNow(digest: Sha256, fact: Fact, s: Site, log: Log, key: string)
    requires |log| > 0 && Sound(s) && GoodLog(digest, s, log) && IsRemote(key)
    requires !log[|log| - 1].0.req.verb.SNAPSHOT? && KeyOf(log[|log| - 1].0) == key
    requires Drained(s, Replay(digest, s.w, log[..|log| - 1]), log[..|log| - 1], key)
    requires LocalKey(key) !in s.w.local && LocalKey(key) in Replay(digest, s.w, log).local
    ensures Holds(digest, fact, Replay(digest, s.w, log), key)
  {
    var call := log[|log| - 1].0;
    assert JobOk(digest, s, call.req);
    if call.req.verb.GET? { OnlyOneGet(digest, s, log, key); } else { NoGetOfGone(digest, s, log, key); }
  }

  /** A local file is sent in the next round: the mirror does not have it, or there is a change of it to
      report. */
  ghost predicate ToBeSent(digest: Sha256, s: Site, key: string)
    requires SoundPaths(s)
  {
    key !in s.w.mirror || HasEdit(digest, s, LocalKey(key))
  }

  lemma SentInRound(digest: Sha256, s: Site, r: Scan, t: Site, key: string)
    requires Sound(s) && Round(digest, s, r, t) && IsRemote(key) && !IsCompose(key) && LocalKey(key) in s.w.local
    ensures HasJob(r.log, PUT, key) <==> ToBeSent(digest, s, key)
  {
    if key in s.w.mirror { SentExactly(digest, s, r, t, key); } else { LackedIsSent(digest, s, r, t, key); }
  }

  ghost predicate WillHold(digest: Sha256, fact: Fact, s: Site, key: string)
    requires SoundPaths(s)
  {
    || Holds(digest, fact, s.w, key)
    || (ToBeSent(digest, s, key) && (fact.Retrievable? ==> !Holds(digest, Same, s.w, key)))
  }

  lemma RoundFact(digest: Sha256, fact: Fact, s: Site, r: Scan, t: Site, key: string)
    requires Sound(s) && Round(digest, s, r, t) && IsRemote(key) && !IsCompose(key) && LocalKey(key) in s.w.local
    ensures LocalKey(key) in t.w.local && (Holds(digest, fact, t.w, key) <==> WillHold(digest, fact, s, key))
  {
    RoundLogIsGood(digest, s, r, t);
    DrainKeepsFiles(digest, s, r.log);
    SentInRound(digest, s, r, t, key);
    DrainFact(digest, fact, s, r.log, key);
  }

  /** After the first round the mirror has every local file, and no change is left to report. */
  lemma NothingToSend(digest: Sha256, s: Site, r: Scan, t: Site, key: string)
    requires Sound(s) && Round(digest, s, r, t) && IsRemote(key) && !IsCompose(key) && LocalKey(key) in t.w.local
    ensures Sound(t) && !ToBeSent(digest, t, key)
  {
    RoundKeepsSound(digest, s, r, t);
    RoundSettles(digest, s, r, t, key);
    if LocalKey(key) in Gone(s.paths, s.tree) { GoneIsNotLocal(digest, s, r, t, key); }
  }

  lemma GoneIsNotLocal(digest: Sha256, s: Site, r: Scan, t: Site, key: string)
    requires Sound(s) && Round(digest, s, r, t) && IsRemote(key) && LocalKey(key) in Gone(s.paths, s.tree)
    ensures LocalKey(key) !in t.w.local
  {
    RoundLogIsGood(digest, s, r, t);
    DrainKey(digest, s, r.log, key);
    forall i | 0 <= i < |r.log| ensures !(r.log[i].0.req.verb.GET? && KeyOf(r.log[i].0) == key) {
      assert r.log[i].0.req.verb.GET? ==> JobOk(digest, s, r.log[i].0.req);
    }
    assert !HasJob(r.log, GET, key);
  }

  lemma {:induction false} FactOverRun(digest: Sha256, fact: Fact, sites: seq<Site>, scans: seq<Scan>, i: nat,
                                       key: string)
    requires IsRun(digest, sites, scans) && 1 <= i < |sites| && IsRemote(key) && !IsCompose(key)
    requires LocalKey(key) in sites[0].w.local
    ensures LocalKey(key) in sites[i].w.local
    ensures (Holds(digest, fact, sites[i].w, key) <==> WillHold(digest, fact, sites[0], key))
  {
    RunIsSound(digest, sites, scans, i - 1);
    assert Round(digest, sites[i - 1], scans[i - 1], sites[i - 1 + 1]);
    if i == 1 {
      RoundFact(digest, fact, sites[0], scans[0], sites[1], key);
    } else {
      FactOverRun(digest, fact, sites, scans, i - 1, key);
      RunIsSound(digest, sites, scans, i - 2);
      assert Round(digest, sites[i - 2], scans[i - 2], sites[i - 2 + 1]);
      FactStays(digest, fact, sites[i - 2], scans[i - 2], sites[i - 1], scans[i - 1], sites[i], key);
    }
  }

  /** From the second round on nothing changes for a local file. */
  lemma FactStays(digest: Sha256, fact: Fact, before: Site, r0: Scan, s: Site, r: Scan, t: Site, key: string)
    requires Sound(before) && Round(digest, before, r0, s) && Sound(s) && Round(digest, s, r, t)
    requires IsRemote(key) && !IsCompose(key) && LocalKey(key) in s.w.local
    ensures LocalKey(key) in t.w.local && (Holds(digest, fact, t.w, key) <==> Holds(digest, fact, s.w, key))
  {
    NothingToSend(digest, before, r0, s, key);
    RoundFact(digest, fact, s, r, t, key);
  }

  lemma {:induction false} FetchedOverRun(digest: Sha256, fact: Fact, sites: seq<Site>, scans: seq<Scan>, i: nat,
                                          key: string)
    requires IsRun(digest, sites, scans) && 1 <= i < |sites| && IsRemote(key) && !IsCompose(key)
    requires LocalKey(key) !in sites[0].w.local && LocalKey(key) in sites[i].w.local
    ensures Holds(digest, fact, sites[i].w, key)
  {
    RunIsSound(digest, sites, scans, i - 1);
    assert Round(digest, sites[i - 1], scans[i - 1], sites[i - 1 + 1]);
    if LocalKey(key) in sites[i - 1].w.local {
      FetchedOverRun(digest, fact, sites, scans, i - 1, key);
    }
    FetchedInRound(digest, fact, sites[i - 1], scans[i - 1], sites[i], key);
  }

  lemma FetchedInRound(digest: Sha256, fact: Fact, s: Site, r: Scan, t: Site, key: string)
    requires Sound(s) && Round(digest, s, r, t) && IsRemote(key) && !IsCompose(key) && LocalKey(key) in t.w.local
    requires LocalKey(key) in s.w.local ==> Holds(digest, fact, s.w, key)
    ensures Holds(digest, fact, t.w, key)
  {
    if LocalKey(key) in s.w.local {
      RoundFact(digest, fact, s, r, t, key);
    } else {
      RoundLogIsGood(digest, s, r, t);
      FetchedFact(digest, fact, s, r.log, key);
    }
  }

  /** A fact holds of every local file, container set-up apart. */
  ghost predicate HoldsOfAll(digest: Sha256, fact: Fact, w: World) {
    forall key :: IsRemote(key) && !IsCompose(key) && LocalKey(key) in w.local ==> Holds(digest, fact, w, key)
  }

  /** From any sound state: after one round, and for good, the server has a file for every local file; or
      one with the same content; or one that it gives back: if and only if at the start that is so
      of every local file that is not to be sent. Of one that is to be sent it becomes so, unless, for
      giving it back, the server has that content already without an entry for it. */
  lemma ArrivesExactly(digest: Sha256, fact: Fact, sites: seq<Site>, scans: seq<Scan>, i: nat)
    requires IsRun(digest, sites, scans) && 1 <= i < |sites|
    ensures HoldsOfAll(digest, fact, sites[i].w) <==>
              forall key :: IsRemote(key) && !IsCompose(key) && LocalKey(key) in sites[0].w.local ==>
                              WillHold(digest, fact, sites[0], key)
  {
    forall key | IsRemote(key) && !IsCompose(key)
      ensures LocalKey(key) in sites[0].w.local ==>
                LocalKey(key) in sites[i].w.local
                && (Holds(digest, fact, sites[i].w, key) <==> WillHold(digest, fact, sites[0], key))
      ensures LocalKey(key) !in sites[0].w.local && LocalKey(key) in sites[i].w.local ==>
                Holds(digest, fact, sites[i].w, key)
    {
      if LocalKey(key) in sites[0].w.local {
        FactOverRun(digest, fact, sites, scans, i, key);
      } else if LocalKey(key) in sites[i].w.local {
        FetchedOverRun(digest, fact, sites, scans, i, key);
      }
    }
  }

  /** In particular where the mirror has only keys of files that the server has; which every exchange
      keeps that is not a damaged replacement (Rpc.HeldKept, Rpc.HeldExactly). */
  lemma FilesReachServer(digest: Sha256, sites: seq<Site>, scans: seq<Scan>, i: nat)
    requires IsRun(digest, sites, scans) && 1 <= i < |sites| && Held(sites[0].w)
    ensures HoldsOfAll(digest, Present, sites[i].w)
  {
    ArrivesExactly(digest, Present, sites, scans, i);
  }
}

/** The snapshot from end to end: what the server renders (server/session.cpp) and what the client
    makes of it (client/client.cpp). */
module Snapshots {
  import opened Wire
  import opened Hashing
  import opened Stores
  import opened Sessions
  import opened Clients
  import opened SharedMaps

  /** A path that survives a snapshot line. */
  ghost predicate GoodPath(p: string) {
    Free(p, PARAM_DELIMITER) && Free(p, REQUEST_DELIMITER) && !HalfEnd(p, PARAM_DELIMITER)
  }

  ghost predicate GoodIndex(m: Index) {
    forall k :: k in m ==> GoodPath(k)
  }

  ghost predicate PrintedHashes(m: Index) {
    forall k :: k in m ==> IsPrintedHash(m[k])
  }

  /** The mirror a snapshot of `m` should give a client that knew nothing. */
  function SnapshotMap(m: Index): Mirror {
    map k | k in m :: SnapshotNode(k, m[k])
  }

  /** A mirror that has just the paths of an index, each with the hash it has there. */
  ghost predicate RecoveredFrom(mirror: Mirror, m: Index) {
    && mirror.Keys == m.Keys
    && forall k :: k in m ==> mirror[k].path == k && !mirror[k].isDir && mirror[k].hashes == [m[k]]
  }

  function Pairs(listing: seq<string>, m: Index): seq<(string, string)>
    requires forall k :: k in listing ==> k in m
  {
    if |listing| == 0 then [] else [(listing[0], m[listing[0]])] + Pairs(listing[1..], m)
  }

  lemma {:induction false} RenderFirst(listing: seq<string>, m: Index)
    requires |listing| > 0 && forall k :: k in listing ==> k in m
    ensures Render(listing, m) == Line(listing[0], m[listing[0]]) + Render(listing[1..], m)
    decreases |listing|
  {
    var n := |listing| - 1;
    if n > 0 {
      RenderFirst(listing[..n], m);
      assert listing[..n][1..] == listing[1..][..n - 1];
      assert listing[1..][n - 1] == listing[n];
      var a, b, c := Line(listing[0], m[listing[0]]), Render(listing[1..][..n - 1], m), Line(listing[n], m[listing[n]]);
      assert (a + b) + c == a + (b + c);
    }
  }

  lemma {:induction false} EntriesConcat(a: seq<Bytes>, b: seq<Bytes>)
    ensures Entries(a + b) == Entries(a) + Entries(b)
  {
    if b == [] {
      assert a + b == a;
    } else {
      var n := |b| - 1;
      assert (a + b)[..|a| + n] == a + b[..n];
      EntriesConcat(a, b[..n]);
    }
  }

  lemma LineIsOneEntry(path: string, hash: string)
    requires GoodPath(path) && IsPrintedHash(hash)
    ensures Free(path + PARAM_DELIMITER + hash, REQUEST_DELIMITER)
    ensures Entries([path + PARAM_DELIMITER + hash]) == [(path, hash)]
  {
    HashIsClean(hash);
    var line := path + PARAM_DELIMITER + hash;
    forall i: nat ensures !At(line, REQUEST_DELIMITER, i) {
      assert At(line, REQUEST_DELIMITER, i) ==> At(path, REQUEST_DELIMITER, i);
    }
    SplitAfter(path, PARAM_DELIMITER, hash);
    SplitFree(hash, PARAM_DELIMITER);
    assert [line][..0] == [];
  }

  lemma {:induction false} EntriesOfRender(listing: seq<string>, m: Index)
    requires forall k :: k in listing ==> k in m && GoodPath(k) && IsPrintedHash(m[k])
    ensures Entries(Split(Render(listing, m), REQUEST_DELIMITER)) == Pairs(listing, m)
    decreases |listing|
  {
    if |listing| == 0 {
      SplitFree("", REQUEST_DELIMITER);
      assert [""][..0] == [];
    } else {
      var k := listing[0];
      var line := k + PARAM_DELIMITER + m[k];
      var rest := Render(listing[1..], m);
      RenderFirst(listing, m);
      LineIsOneEntry(k, m[k]);
      assert Render(listing, m) == line + REQUEST_DELIMITER + rest;
      SplitAfter(line, REQUEST_DELIMITER, rest);
      EntriesConcat([line], Split(rest, REQUEST_DELIMITER));
      EntriesOfRender(listing[1..], m);
    }
  }

  function Listed(listing: seq<string>, m: Index): Mirror
    requires forall k :: k in listing ==> k in m
  {
    map k | k in listing :: SnapshotNode(k, m[k])
  }

  lemma InsertOne(before: Mirror, mirror: Mirror, k: string, hash: string)
    requires k in before ==> before[k] == SnapshotNode(k, hash)
    ensures InsertNew(before + mirror, k, SnapshotNode(k, hash)) == before[k := SnapshotNode(k, hash)] + mirror
  {
  }

  lemma {:induction false} InsertPairs(mirror: Mirror, listing: seq<string>, m: Index)
    requires forall k :: k in listing ==> k in m
    ensures InsertAll(mirror, Pairs(listing, m)) == Listed(listing, m) + mirror
    decreases |listing|
  {
    var n := |listing| - 1;
    if n >= 0 {
      var k := listing[n];
      var ps := Pairs(listing, m);
      PairsLast(listing, m);
      InsertPairs(mirror, listing[..n], m);
      assert ps[..n] == Pairs(listing[..n], m) && ps[n] == (k, m[k]);
      InsertOne(Listed(listing[..n], m), mirror, k, m[k]);
      ListedLast(listing, m);
    } else {
      assert Listed(listing, m) + mirror == mirror;
    }
  }

  lemma ListedLast(listing: seq<string>, m: Index)
    requires |listing| > 0 && forall k :: k in listing ==> k in m
    ensures var n := |listing| - 1;
            Listed(listing, m) == Listed(listing[..n], m)[listing[n] := SnapshotNode(listing[n], m[listing[n]])]
  {
    var n := |listing| - 1;
    assert listing == listing[..n] + [listing[n]];
  }

  lemma ListedAll(listing: seq<string>, m: Index)
    requires Enumerates(listing, m)
    ensures Listed(listing, m) == SnapshotMap(m)
  {
  }

  lemma {:induction false} PairsLast(listing: seq<string>, m: Index)
    requires |listing| > 0 && forall k :: k in listing ==> k in m
    ensures var n := |listing| - 1;
            |Pairs(listing, m)| == n + 1
            && Pairs(listing, m) == Pairs(listing[..n], m) + [(listing[n], m[listing[n]])]
    decreases |listing|
  {
    var n := |listing| - 1;
    if n > 0 {
      PairsLast(listing[1..], m);
      assert listing[1..][..n - 1] == listing[..n][1..];
    }
  }

  lemma SnapshotMerged(mirror: Mirror, listing: seq<string>, m: Index)
    requires Enumerates(listing, m) && GoodIndex(m) && PrintedHashes(m)
    ensures OnSnapshotBody(mirror, Render(listing, m)) == SnapshotMap(m) + mirror
  {
    EntriesOfRender(listing, m);
    InsertPairs(mirror, listing, m);
    ListedAll(listing, m);
  }

  /** A snapshot of good paths adds to any mirror exactly the entries of the index that it lacks. */
  lemma SnapshotMerges(mirror: Mirror, listing: seq<string>, m: Index)
    requires Enumerates(listing, m) && GoodIndex(m) && PrintedHashes(m)
    ensures OnSnapshotBody(mirror, Render(listing, m)) == SnapshotMap(m) + mirror
    ensures var after := OnSnapshotBody(mirror, Render(listing, m));
            && after.Keys == mirror.Keys + m.Keys
            && (forall k :: k in mirror ==> after[k] == mirror[k])
            && (forall k :: k in m && k !in mirror ==>
                  after[k].path == k && !after[k].isDir && after[k].hashes == [m[k]])
  {
    SnapshotMerged(mirror, listing, m);
  }

  lemma PrefixIsFree(s: Bytes, n: nat, d: Delimiter)
    requires n <= |s| && Free(s, d)
    ensures Free(s[..n], d)
  {
    forall i: nat ensures !At(s[..n], d, i) {
      assert At(s[..n], d, i) ==> At(s, d, i);
    }
  }

  /** Whatever the body, the paths read out of it are good ones. */
  lemma {:induction false} ParsedPathsAreGood(mirror: Mirror, lines: seq<Bytes>)
    requires forall l :: l in lines ==> Free(l, REQUEST_DELIMITER)
    ensures forall k :: k in InsertAll(mirror, Entries(lines)) ==> k in mirror || GoodPath(k)
  {
    if |lines| > 0 {
      var n := |lines| - 1;
      ParsedPathsAreGood(mirror, lines[..n]);
      var line := lines[n];
      var arguments := Split(line, PARAM_DELIMITER);
      var es := Entries(lines[..n]);
      if line != "" && |arguments| == 2 {
        SplitIsTidy(line, PARAM_DELIMITER);
        PrefixIsFree(line, Find(line, PARAM_DELIMITER), REQUEST_DELIMITER);
        assert GoodPath(arguments[0]);
        assert (es + [(arguments[0], arguments[1])])[..|es|] == es;
      } else {
        assert es + [] == es;
      }
    }
  }

  lemma BadPathIsLost(body: Bytes, k: string)
    requires !GoodPath(k)
    ensures k !in OnSnapshotBody(map[], body)
  {
    SplitIsTidy(body, REQUEST_DELIMITER);
    ParsedPathsAreGood(map[], Split(body, REQUEST_DELIMITER));
  }

  /** The round trip, exactly: a client that knew nothing gets from the rendered index the map of the
      server if and only if every path in it is good: no "##", no CR LF, no '#' at the end. */
  lemma SnapshotRoundTrip(listing: seq<string>, m: Index)
    requires Enumerates(listing, m) && PrintedHashes(m)
    ensures OnSnapshotBody(map[], Render(listing, m)) == SnapshotMap(m) <==> GoodIndex(m)
    ensures RecoveredFrom(OnSnapshotBody(map[], Render(listing, m)), m) <==> GoodIndex(m)
  {
    var body := Render(listing, m);
    if GoodIndex(m) {
      SnapshotMerges(map[], listing, m);
      assert SnapshotMap(m) + map[] == SnapshotMap(m);
    } else {
      var k :| k in m && !GoodPath(k);
      BadPathIsLost(body, k);
      assert k in SnapshotMap(m);
    }
  }
}

/** What the server keeps: the data directory, and per user the index path -> hash that Redis holds
    (server/db.cpp). */
module Stores {
  import opened Wire
  import opened Orderings
  import opened Hashing

  type Index = map<string, string>

  datatype Store = Store(files: map<string, Bytes>, index: map<string, Index>)

  const DATA_DIR := "../data/"

  function FullPath(user: string, path: string): string { DATA_DIR + user + path }

  function UserIndex(st: Store, user: string): Index {
    if user in st.index then st.index[user] else map[]
  }

  /** `get_user_file_hash`: "" for no entry. */
  function GetHash(st: Store, user: string, path: string): string {
    if path in UserIndex(st, user) then UserIndex(st, user)[path] else ""
  }

  /** `save_user_file_hash` */
  function SaveHash(st: Store, user: string, path: string, hash: string): (r: Store)
    ensures r.files == st.files
    ensures UserIndex(r, user) == UserIndex(st, user)[path := hash]
    ensures forall u :: u != user ==> UserIndex(r, u) == UserIndex(st, u)
  {
    st.(index := st.index[user := UserIndex(st, user)[path := hash]])
  }

  /** `delete_file_from_snapshot` */
  function DropHash(st: Store, user: string, path: string): (r: Store)
    ensures r.files == st.files
    ensures UserIndex(r, user) == UserIndex(st, user) - {path}
    ensures forall u :: u != user ==> UserIndex(r, u) == UserIndex(st, u)
  {
    if user in st.index then st.(index := st.index[user := st.index[user] - {path}]) else st
  }

  /** `getSHA` of a path: a file that cannot be opened hashes like an empty one. */
  function FileHash(digest: Sha256, files: map<string, Bytes>, full: string): string {
    Sha(digest, if full in files then files[full] else "")
  }

  /** `listing` names every key of `m` once: the order a map happens to be walked in. */
  ghost predicate Enumerates<V>(listing: seq<string>, m: map<string, V>) {
    Orders(listing, m.Keys)
  }

  method Enumerate<V>(m: map<string, V>) returns (listing: seq<string>)
    ensures Enumerates(listing, m)
  {
    listing := [];
    var left := m.Keys;
    while left != {}
      invariant left <= m.Keys
      invariant Orders(listing, m.Keys - left)
    {
      var k :| k in left;
      OrdersOneMore(listing, m.Keys - left, k);
      assert m.Keys - left + {k} == m.Keys - (left - {k});
      listing := listing + [k];
      left := left - {k};
    }
  }

  /** The reply of HGETALL: key, value, key, value, ... */
  function Flat(listing: seq<string>, m: Index): seq<string>
    requires forall k :: k in listing ==> k in m
  {
    if |listing| == 0 then []
    else Flat(listing[..|listing| - 1], m) + [listing[|listing| - 1], m[listing[|listing| - 1]]]
  }

  lemma {:induction false} FlatAt(listing: seq<string>, m: Index, i: nat)
    requires forall k :: k in listing ==> k in m
    requires i < |listing|
    ensures |Flat(listing, m)| == 2 * |listing|
    ensures Flat(listing, m)[2 * i] == listing[i] && Flat(listing, m)[2 * i + 1] == m[listing[i]]
  {
    var n := |listing| - 1;
    if n > 0 {
      FlatAt(listing[..n], m, if i < n then i else 0);
    }
  }

  class Db {
    var index: map<string, Index>

    constructor ()
      ensures index == map[]
    {
      index := map[];
    }

    ghost function IndexOf(user: string): Index
      reads this
    {
      if user in index then index[user] else map[]
    }

    method SaveUserFileHash(user: string, path: string, sha: string)
      modifies this
      ensures forall files :: Store(files, index) == SaveHash(Store(files, old(index)), user, path, sha)
    {
      var mine := if user in index then index[user] else map[];
      index := index[user := mine[path := sha]];
    }

    method DeleteFileFromSnapshot(user: string, path: string) returns (deleted: bool)
      modifies this
      ensures forall files :: Store(files, index) == DropHash(Store(files, old(index)), user, path)
      ensures deleted <==> path in old(IndexOf(user))
    {
      deleted := user in index && path in index[user];
      if user in index {
        index := index[user := index[user] - {path}];
      }
    }

    method GetUserFileHash(user: string, path: string) returns (hash: string)
      ensures forall files :: hash == GetHash(Store(files, index), user, path)
    {
      if user in index && path in index[user] {
        hash := index[user][path];
      } else {
        hash := "";
      }
    }

    method HGetAll(user: string) returns (cells: seq<string>, ghost listing: seq<string>)
      ensures Enumerates(listing, IndexOf(user)) && cells == Flat(listing, IndexOf(user))
    {
      var m := if user in index then index[user] else map[];
      var keys := Enumerate(m);
      cells := [];
      for i := 0 to |keys|
        invariant cells == Flat(keys[..i], m)
      {
        assert keys[..i + 1][..i] == keys[..i];
        cells := cells + [keys[i], m[keys[i]]];
      }
      assert keys[..|keys|] == keys;
      listing := keys;
    }

    /** `get_user_snapshot`: pairs the cells of the reply up again. */
    method GetUserSnapshot(user: string) returns (tmp: Index)
      ensures tmp == IndexOf(user)
    {
      var cells, listing := HGetAll(user);
      ghost var m := IndexOf(user);
      tmp := map[];
      if |cells| > 0 {
        FlatLength(listing, m);
        var i := 0;
        ghost var pairs := 0;
        while i < |cells| - 1
          invariant i == 2 * pairs && 0 <= pairs <= |listing|
          invariant tmp == Restricted(m, listing, pairs)
        {
          FlatAt(listing, m, pairs);
          tmp := tmp[cells[i] := cells[i + 1]];
          RestrictedMore(m, listing, pairs);
          i, pairs := i + 2, pairs + 1;
        }
      }
    }
  }

  /** The entries of the first `n` keys of a listing. */
  ghost function Restricted(m: Index, listing: seq<string>, n: nat): Index
    requires n <= |listing|
  {
    map k | k in m && k in listing[..n] :: m[k]
  }

  lemma RestrictedMore(m: Index, listing: seq<string>, n: nat)
    requires n < |listing| && listing[n] in m
    ensures Restricted(m, listing, n + 1) == Restricted(m, listing, n)[listing[n] := m[listing[n]]]
  {
    assert listing[..n + 1] == listing[..n] + [listing[n]];
  }

  lemma FlatLength(listing: seq<string>, m: Index)
    requires forall k :: k in listing ==> k in m
    ensures |Flat(listing, m)| == 2 * |listing|
  {
    if |listing| > 0 { FlatAt(listing, m, 0); }
  }

  class Disk {
    var files: map<string, Bytes>

    constructor ()
      ensures files == map[]
    {
      files := map[];
    }
  }
}
